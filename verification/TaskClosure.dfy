/**
 * The closure protocol (closeTaskRun in scripts/agentic/task-runtime.ts).
 *
 * A repository holds a task file and, once closed, an evidence snapshot per task
 * directory.  closeTaskRun is a sequence of reads, one exclusive link of the snapshot and
 * one replacement of the task file; between two of these anything else may happen.
 * `Advance` is one such step of one closer.  Task files are written whole, from the copy
 * that the closer read.
 */
module TaskClosure {
  import opened Wrappers
  import opened TaskRuns

  /**
   * The checks of closeTaskRun.  The protocol does not depend on what they are, as long
   * as accepted evidence has a status and matches the task.
   */
  datatype Checks = Checks(
    shape: Header -> bool,                     // validateTaskRunShape
    matches: (Requirements, Record) -> bool,   // assertEvidenceMatchesTask
    accepts: (Requirements, Record) -> bool,   // all checks of a task's own evidence
    status: Record -> Option<EvidenceStatus>)

  ghost predicate Coherent(k: Checks) {
    && (forall r, e :: k.accepts(r, e) ==> k.matches(r, e) && k.status(e).Some?)
    && (forall h :: k.shape(Normalize(h)) <==> k.shape(h))
  }

  /** The checks the source makes, for its tables, completion contract and lessons. */
  function SourceChecks(tables: Tables, contract: seq<string>, lessonIds: set<string>): Checks {
    Checks(
      h => ValidShape(tables, h),
      (r, e) => EvidenceMatches(r, e),
      (r, e) => Acceptable(contract, lessonIds, r, e),
      e => StatusOf(e))
  }

  lemma SourceChecksCoherent(tables: Tables, contract: seq<string>, lessonIds: set<string>)
    ensures Coherent(SourceChecks(tables, contract, lessonIds))
  {
    forall h ensures ValidShape(tables, Normalize(h)) <==> ValidShape(tables, h) {
      NormalizeTwice(h);
      assert GetRequestContext(Normalize(h)) == GetRequestContext(h);
    }
  }

  datatype Snapshot = Snapshot(taskId: string, evidence: Record)

  /** Task directories by name. */
  datatype Files = Files(tasks: map<string, TaskRun>, snapshots: map<string, Snapshot>)

  /** Where a closer is. `run` is its copy of the task, with the request context filled in. */
  datatype Closer =
    | Reading(ref: string)
    | Checking(ref: string, run: TaskRun, next: nat)                   // the next dependency's task file
    | CheckingEvidence(ref: string, run: TaskRun, next: nat, dep: TaskRun) // and its snapshot
    | Probing(ref: string, run: TaskRun)                               // is there a snapshot?
    | Comparing(ref: string, run: TaskRun)                             // there is: read it
    | Linking(ref: string, run: TaskRun)                               // there is none: link one
    | Writing(ref: string, run: TaskRun, status: EvidenceStatus)       // the task file, with its status
    | Finished(ref: string, status: EvidenceStatus)
    | Refused(ref: string)

  function Evidence(run: TaskRun): Record {
    EnsureRecord(run.evidence)
  }

  /** The checks on a dependency's snapshot. */
  predicate Trusted(k: Checks, fs: Files, ref: string, dep: TaskRun) {
    && ref in fs.snapshots
    && fs.snapshots[ref].taskId == dep.header.id
    && k.matches(dep.header.required, fs.snapshots[ref].evidence)
    && k.status(fs.snapshots[ref].evidence) == Some(Passed)
  }

  /** The checks on the task's own snapshot, when there is one. */
  predicate Confirmed(k: Checks, fs: Files, ref: string, run: TaskRun) {
    && ref in fs.snapshots
    && fs.snapshots[ref].taskId == run.header.id
    && k.matches(run.header.required, fs.snapshots[ref].evidence)
    && k.status(fs.snapshots[ref].evidence).Some?
  }

  function Link(fs: Files, ref: string, run: TaskRun): Files {
    fs.(snapshots := fs.snapshots[ref := Snapshot(run.header.id, Evidence(run))])
  }

  function Write(fs: Files, ref: string, run: TaskRun): Files {
    fs.(tasks := fs.tasks[ref := run])
  }

  /**
   * One step.  `enoent` says whether an error raised while comparing has "ENOENT" in its
   * message, which the source takes for a missing snapshot.
   */
  function Advance(k: Checks, fs: Files, c: Closer, enoent: bool): (Files, Closer) {
    match c
    case Reading(ref) =>
      if ref in fs.tasks && k.shape(fs.tasks[ref].header)
      then (fs, Checking(ref, fs.tasks[ref].(header := Normalize(fs.tasks[ref].header)), 0))
      else (fs, Refused(ref))
    case Checking(ref, run, next) =>
      if next >= |run.header.dependencies| then
        (fs, if k.accepts(run.header.required, Evidence(run)) then Probing(ref, run) else Refused(ref))
      else
        var d := run.header.dependencies[next];
        if d in fs.tasks && fs.tasks[d].status.Done? then (fs, CheckingEvidence(ref, run, next, fs.tasks[d]))
        else (fs, Refused(ref))
    case CheckingEvidence(ref, run, next, dep) =>
      if next < |run.header.dependencies| && Trusted(k, fs, run.header.dependencies[next], dep)
      then (fs, Checking(ref, run, next + 1))
      else (fs, Refused(ref))
    case Probing(ref, run) =>
      (fs, if ref in fs.snapshots then Comparing(ref, run) else Linking(ref, run))
    case Comparing(ref, run) =>
      if Confirmed(k, fs, ref, run)
      then (fs, Writing(ref, run, k.status(fs.snapshots[ref].evidence).value))
      else (fs, if enoent then Linking(ref, run) else Refused(ref))
    case Linking(ref, run) =>
      if ref in fs.snapshots || k.status(Evidence(run)).None? then (fs, Refused(ref))
      else (Link(fs, ref, run), Writing(ref, run, k.status(Evidence(run)).value))
    case Writing(ref, run, status) =>
      (Write(fs, ref, run.(status := ToTaskStatus(status))), Finished(ref, status))
    case Finished(_, _) => (fs, c)
    case Refused(_) => (fs, c)
  }

  // --- Many closers -------------------------------------------------------------------

  /** `order` records in which order the snapshots were linked. */
  datatype State = State(files: Files, closers: map<nat, Closer>, order: seq<string>)

  datatype Event =
    | Spawn(p: nat, ref: string)
    | Move(p: nat, enoent: bool)
    | Die(p: nat)                     // a crash, or an error from the file system
    | Edit(ref: string, evidence: Json) // an agent fills in the evidence of a task

  predicate Enabled(s: State, e: Event) {
    match e
    case Spawn(p, _) => p !in s.closers
    case Move(p, _) => p in s.closers
    case Die(p) => p in s.closers
    case Edit(ref, _) => ref in s.files.tasks
  }

  function Next(k: Checks, s: State, e: Event): State
    requires Enabled(s, e)
  {
    match e
    case Spawn(p, ref) => s.(closers := s.closers[p := Reading(ref)])
    case Move(p, enoent) =>
      var (fs, c) := Advance(k, s.files, s.closers[p], enoent);
      State(fs, s.closers[p := c],
            if fs.snapshots.Keys == s.files.snapshots.Keys then s.order else s.order + [c.ref])
    case Die(p) => s.(closers := s.closers - {p})
    case Edit(ref, evidence) =>
      s.(files := s.files.(tasks := s.files.tasks[ref := s.files.tasks[ref].(evidence := evidence)]))
  }

  /** Runs start with task files only, none of them closed. */
  ghost predicate IsInitial(s: State) {
    && s.closers == map[] && s.order == [] && s.files.snapshots == map[]
    && forall ref :: ref in s.files.tasks ==> !s.files.tasks[ref].status.Done?
  }

  ghost predicate IsRun(k: Checks, es: seq<Event>, ss: seq<State>) {
    && |ss| == |es| + 1 && IsInitial(ss[0])
    && forall i :: 0 <= i < |es| ==> IsStep(k, es, ss, i)
  }

  ghost predicate IsStep(k: Checks, es: seq<Event>, ss: seq<State>, i: nat)
    requires |ss| == |es| + 1 && i < |es|
  {
    Enabled(ss[i], es[i]) && ss[i + 1] == Next(k, ss[i], es[i])
  }

  // --- The invariant --------------------------------------------------------------------

  /** The two files are about the same task. */
  predicate SameTask(a: TaskRun, b: TaskRun) {
    Normalize(a.header) == Normalize(b.header)
  }

  /** Closed for good: the snapshot passed, and the task file says so. */
  predicate Settled(k: Checks, fs: Files, ref: string) {
    && ref in fs.tasks && ref in fs.snapshots
    && k.status(fs.snapshots[ref].evidence) == Some(Passed)
    && fs.tasks[ref].status.Done?
  }

  predicate SettledUpTo(k: Checks, fs: Files, refs: seq<string>, n: nat) {
    n <= |refs| && forall j :: 0 <= j < n ==> Settled(k, fs, refs[j])
  }

  predicate AllSettled(k: Checks, fs: Files, run: TaskRun) {
    SettledUpTo(k, fs, run.header.dependencies, |run.header.dependencies|)
  }

  /** A closer's copy is the task it read, possibly with older evidence. */
  predicate Copied(k: Checks, fs: Files, ref: string, run: TaskRun) {
    && ref in fs.tasks && SameTask(run, fs.tasks[ref])
    && Normalize(run.header) == run.header && k.shape(run.header)
  }

  /** Past all its checks. */
  predicate Checked(k: Checks, fs: Files, ref: string, run: TaskRun) {
    Copied(k, fs, ref, run) && AllSettled(k, fs, run) && k.accepts(run.header.required, Evidence(run))
  }

  predicate CloserInv(k: Checks, fs: Files, c: Closer) {
    match c
    case Checking(ref, run, next) =>
      Copied(k, fs, ref, run) && SettledUpTo(k, fs, run.header.dependencies, next)
    case CheckingEvidence(ref, run, next, dep) =>
      && Copied(k, fs, ref, run) && SettledUpTo(k, fs, run.header.dependencies, next)
      && next < |run.header.dependencies| && Settled(k, fs, run.header.dependencies[next])
    case Probing(ref, run) => Checked(k, fs, ref, run)
    case Comparing(ref, run) => Checked(k, fs, ref, run)
    case Linking(ref, run) => Checked(k, fs, ref, run)
    case Writing(ref, run, status) =>
      && Copied(k, fs, ref, run) && ref in fs.snapshots
      && k.status(fs.snapshots[ref].evidence) == Some(status)
    case Finished(ref, status) =>
      ref in fs.snapshots && k.status(fs.snapshots[ref].evidence) == Some(status)
    case _ => true
  }

  /** A snapshot passed every check of closeTaskRun when it was linked. */
  predicate SnapshotInv(k: Checks, fs: Files, ref: string)
    requires ref in fs.snapshots
  {
    && ref in fs.tasks
    && fs.snapshots[ref].taskId == fs.tasks[ref].header.id
    && k.accepts(fs.tasks[ref].header.required, fs.snapshots[ref].evidence)
    && k.shape(fs.tasks[ref].header)
    && AllSettled(k, fs, fs.tasks[ref])
  }

  /** A task file that says Done has a passed snapshot. */
  predicate StatusInv(k: Checks, fs: Files, ref: string)
    requires ref in fs.tasks
  {
    fs.tasks[ref].status.Done? ==> Settled(k, fs, ref)
  }

  predicate FilesInv(k: Checks, fs: Files) {
    && (forall ref :: ref in fs.snapshots ==> SnapshotInv(k, fs, ref))
    && (forall ref :: ref in fs.tasks ==> StatusInv(k, fs, ref))
  }

  predicate LinkedBefore(fs: Files, order: seq<string>, i: nat)
    requires i < |order|
  {
    order[i] in fs.tasks && forall d :: d in fs.tasks[order[i]].header.dependencies ==> d in order[..i]
  }

  /** Every task was linked after all its dependencies. */
  ghost predicate OrderInv(fs: Files, order: seq<string>) {
    && (forall ref :: ref in order <==> ref in fs.snapshots)
    && (forall i, j :: 0 <= i < j < |order| ==> order[i] != order[j])
    && (forall i :: 0 <= i < |order| ==> LinkedBefore(fs, order, i))
  }

  ghost predicate Inv(k: Checks, s: State) {
    && FilesInv(k, s.files)
    && ClosersInv(k, s.files, s.closers)
    && OrderInv(s.files, s.order)
  }

  /** What a step may do to the files. */
  ghost predicate Follows(k: Checks, fs: Files, fs': Files) {
    && fs'.tasks.Keys == fs.tasks.Keys
    && (forall ref :: ref in fs.tasks ==> SameTask(fs'.tasks[ref], fs.tasks[ref]))
    && (forall ref :: ref in fs.snapshots ==> ref in fs'.snapshots && fs'.snapshots[ref] == fs.snapshots[ref])
    && (forall ref :: Settled(k, fs, ref) ==> Settled(k, fs', ref))
  }

  lemma CloserFollows(k: Checks, fs: Files, fs': Files, c: Closer)
    requires CloserInv(k, fs, c) && Follows(k, fs, fs')
    ensures CloserInv(k, fs', c)
  {
  }

  /** What the same task is the same in. */
  lemma SameTaskAgrees(k: Checks, a: TaskRun, b: TaskRun)
    requires Coherent(k) && SameTask(a, b)
    ensures a.header.id == b.header.id && a.header.required == b.header.required
    ensures a.header.dependencies == b.header.dependencies
    ensures k.shape(a.header) <==> k.shape(b.header)
  {
    assert k.shape(Normalize(a.header)) <==> k.shape(a.header);
    assert k.shape(Normalize(b.header)) <==> k.shape(b.header);
  }

  lemma SnapshotFollows(k: Checks, fs: Files, fs': Files, ref: string)
    requires Coherent(k) && ref in fs.snapshots && SnapshotInv(k, fs, ref) && Follows(k, fs, fs')
    ensures SnapshotInv(k, fs', ref)
  {
    SameTaskAgrees(k, fs'.tasks[ref], fs.tasks[ref]);
  }

  lemma OrderFollows(k: Checks, fs: Files, fs': Files, order: seq<string>)
    requires Coherent(k) && OrderInv(fs, order) && Follows(k, fs, fs') && fs'.snapshots.Keys == fs.snapshots.Keys
    ensures OrderInv(fs', order)
  {
    forall i | 0 <= i < |order| ensures LinkedBefore(fs', order, i) {
      assert LinkedBefore(fs, order, i);
      SameTaskAgrees(k, fs'.tasks[order[i]], fs.tasks[order[i]]);
    }
  }

  /** Replacing a task file, when a Done status is backed by the snapshot. */
  lemma WriteFollows(k: Checks, fs: Files, ref: string, run: TaskRun)
    requires Coherent(k) && FilesInv(k, fs) && ref in fs.tasks && SameTask(run, fs.tasks[ref])
    requires run.status.Done? ==> ref in fs.snapshots && k.status(fs.snapshots[ref].evidence) == Some(Passed)
    requires Settled(k, fs, ref) ==> run.status.Done?
    ensures Follows(k, fs, Write(fs, ref, run)) && FilesInv(k, Write(fs, ref, run))
  {
    var fs' := Write(fs, ref, run);
    assert Follows(k, fs, fs');
    forall r | r in fs'.snapshots ensures SnapshotInv(k, fs', r) {
      SnapshotFollows(k, fs, fs', r);
    }
    forall r | r in fs'.tasks ensures StatusInv(k, fs', r) {
      assert StatusInv(k, fs, r);
    }
  }

  /** Linking a snapshot where there is none. */
  lemma LinkFollows(k: Checks, fs: Files, ref: string, run: TaskRun)
    requires Coherent(k) && FilesInv(k, fs) && Checked(k, fs, ref, run) && ref !in fs.snapshots
    ensures Follows(k, fs, Link(fs, ref, run)) && FilesInv(k, Link(fs, ref, run))
  {
    var fs' := Link(fs, ref, run);
    SameTaskAgrees(k, run, fs.tasks[ref]);
    assert Follows(k, fs, fs');
    forall r | r in fs'.snapshots ensures SnapshotInv(k, fs', r) {
      if r != ref {
        SnapshotFollows(k, fs, fs', r);
      }
    }
    forall r | r in fs'.tasks ensures StatusInv(k, fs', r) {
      assert StatusInv(k, fs, r);
    }
  }

  lemma LinkOrder(k: Checks, fs: Files, order: seq<string>, ref: string, run: TaskRun)
    requires Coherent(k) && Checked(k, fs, ref, run) && ref !in fs.snapshots && OrderInv(fs, order)
    ensures OrderInv(Link(fs, ref, run), order + [ref])
  {
    var order', fs' := order + [ref], Link(fs, ref, run);
    SameTaskAgrees(k, run, fs.tasks[ref]);
    forall i | 0 <= i < |order'| ensures LinkedBefore(fs', order', i) {
      if i < |order| {
        assert LinkedBefore(fs, order, i) && order'[..i] == order[..i];
      } else {
        assert order'[..i] == order;
        assert forall j :: 0 <= j < |run.header.dependencies| ==> Settled(k, fs, run.header.dependencies[j]);
      }
    }
  }

  lemma ReadingKeeps(k: Checks, fs: Files, ref: string)
    requires Coherent(k) && ref in fs.tasks && k.shape(fs.tasks[ref].header)
    ensures Copied(k, fs, ref, fs.tasks[ref].(header := Normalize(fs.tasks[ref].header)))
  {
    NormalizeTwice(fs.tasks[ref].header);
    assert k.shape(Normalize(fs.tasks[ref].header)) <==> k.shape(fs.tasks[ref].header);
  }

  lemma CheckingKeeps(k: Checks, fs: Files, c: Closer, enoent: bool)
    requires FilesInv(k, fs) && CloserInv(k, fs, c) && (c.Checking? || c.CheckingEvidence?)
    ensures Advance(k, fs, c, enoent).0 == fs && CloserInv(k, fs, Advance(k, fs, c, enoent).1)
  {
    if c.Checking? && c.next < |c.run.header.dependencies| && c.run.header.dependencies[c.next] in fs.tasks {
      assert StatusInv(k, fs, c.run.header.dependencies[c.next]);
    }
  }

  lemma LinkingKeeps(k: Checks, fs: Files, c: Closer, enoent: bool)
    requires Coherent(k) && FilesInv(k, fs) && c.Linking? && Checked(k, fs, c.ref, c.run)
    ensures var (fs', c') := Advance(k, fs, c, enoent);
            Follows(k, fs, fs') && FilesInv(k, fs') && CloserInv(k, fs', c')
  {
    if c.ref !in fs.snapshots {
      LinkFollows(k, fs, c.ref, c.run);
      CloserFollows(k, fs, Link(fs, c.ref, c.run), c);
    }
  }

  /** A task file whose status or evidence is replaced is about the same task. */
  lemma SameTaskRewritten(a: TaskRun, b: TaskRun, status: TaskStatus, evidence: Json)
    requires SameTask(a, b)
    ensures SameTask(a.(status := status), b) && SameTask(a.(evidence := evidence), b)
  {
  }

  /** A closer's write, when the task's snapshot has the status it carries. */
  lemma StatusWriteFollows(k: Checks, fs: Files, ref: string, run: TaskRun, status: EvidenceStatus)
    requires Coherent(k) && FilesInv(k, fs) && ref in fs.tasks && SameTask(run, fs.tasks[ref])
    requires ref in fs.snapshots && k.status(fs.snapshots[ref].evidence) == Some(status)
    ensures var fs' := Write(fs, ref, run.(status := ToTaskStatus(status)));
            Follows(k, fs, fs') && FilesInv(k, fs')
  {
    SameTaskRewritten(run, fs.tasks[ref], ToTaskStatus(status), Null);
    WriteFollows(k, fs, ref, run.(status := ToTaskStatus(status)));
  }

  lemma WritingKeeps(k: Checks, fs: Files, c: Closer, enoent: bool)
    requires Coherent(k) && FilesInv(k, fs) && c.Writing? && CloserInv(k, fs, c)
    ensures var (fs', c') := Advance(k, fs, c, enoent);
            Follows(k, fs, fs') && FilesInv(k, fs') && CloserInv(k, fs', c')
  {
    assert Advance(k, fs, c, enoent)
        == (Write(fs, c.ref, c.run.(status := ToTaskStatus(c.status))), Finished(c.ref, c.status));
    StatusWriteFollows(k, fs, c.ref, c.run, c.status);
  }

  lemma ReadingAdvances(k: Checks, fs: Files, c: Closer, enoent: bool)
    requires Coherent(k) && c.Reading?
    ensures Advance(k, fs, c, enoent).0 == fs && CloserInv(k, fs, Advance(k, fs, c, enoent).1)
  {
    if c.ref in fs.tasks && k.shape(fs.tasks[c.ref].header) {
      ReadingKeeps(k, fs, c.ref);
    }
  }

  lemma LookingKeeps(k: Checks, fs: Files, c: Closer, enoent: bool)
    requires CloserInv(k, fs, c) && !(c.Reading? || c.Checking? || c.CheckingEvidence? || c.Linking? || c.Writing?)
    ensures Advance(k, fs, c, enoent).0 == fs && CloserInv(k, fs, Advance(k, fs, c, enoent).1)
  {
  }

  lemma FollowsItself(k: Checks, fs: Files)
    ensures Follows(k, fs, fs)
  {
  }

  /** One step of one closer keeps its own invariant and what the others rely on. */
  lemma AdvanceKeeps(k: Checks, fs: Files, c: Closer, enoent: bool)
    requires Coherent(k) && FilesInv(k, fs) && CloserInv(k, fs, c)
    ensures var (fs', c') := Advance(k, fs, c, enoent);
            Follows(k, fs, fs') && FilesInv(k, fs') && CloserInv(k, fs', c')
  {
    FollowsItself(k, fs);
    if c.Linking? {
      LinkingKeeps(k, fs, c, enoent);
    } else if c.Writing? {
      WritingKeeps(k, fs, c, enoent);
    } else if c.Checking? || c.CheckingEvidence? {
      CheckingKeeps(k, fs, c, enoent);
    } else if c.Reading? {
      ReadingAdvances(k, fs, c, enoent);
    } else {
      LookingKeeps(k, fs, c, enoent);
    }
  }

  predicate Links(k: Checks, fs: Files, c: Closer) {
    c.Linking? && c.ref !in fs.snapshots && k.status(Evidence(c.run)).Some?
  }

  /** Snapshots come from linking only. */
  lemma OnlyLinkingLinks(k: Checks, fs: Files, c: Closer, enoent: bool)
    ensures var fs' := Advance(k, fs, c, enoent).0;
            if Links(k, fs, c) then fs' == Link(fs, c.ref, c.run) && fs'.snapshots.Keys == fs.snapshots.Keys + {c.ref}
            else fs'.snapshots == fs.snapshots
    ensures Advance(k, fs, c, enoent).1.ref == c.ref
  {
  }

  lemma AdvanceOrder(k: Checks, s: State, p: nat, enoent: bool)
    requires Coherent(k) && p in s.closers && CloserInv(k, s.files, s.closers[p]) && OrderInv(s.files, s.order)
    requires Follows(k, s.files, Next(k, s, Move(p, enoent)).files)
    ensures var s' := Next(k, s, Move(p, enoent)); OrderInv(s'.files, s'.order)
  {
    var c := s.closers[p];
    var s' := Next(k, s, Move(p, enoent));
    OnlyLinkingLinks(k, s.files, c, enoent);
    if Links(k, s.files, c) {
      LinkOrder(k, s.files, s.order, c.ref, c.run);
      assert c.ref in s'.files.snapshots.Keys;
    } else {
      OrderFollows(k, s.files, s'.files, s.order);
    }
  }

  ghost predicate ClosersInv(k: Checks, fs: Files, closers: map<nat, Closer>) {
    forall p :: p in closers ==> CloserInv(k, fs, closers[p])
  }

  lemma ClosersFollow(k: Checks, fs: Files, fs': Files, closers: map<nat, Closer>)
    requires ClosersInv(k, fs, closers) && Follows(k, fs, fs')
    ensures ClosersInv(k, fs', closers)
  {
    forall p | p in closers ensures CloserInv(k, fs', closers[p]) {
      CloserFollows(k, fs, fs', closers[p]);
    }
  }

  /** An agent fills in evidence: the task, its status and its snapshot stay. */
  lemma EvidenceWriteFollows(k: Checks, fs: Files, ref: string, evidence: Json)
    requires Coherent(k) && FilesInv(k, fs) && ref in fs.tasks
    ensures var fs' := Write(fs, ref, fs.tasks[ref].(evidence := evidence));
            Follows(k, fs, fs') && FilesInv(k, fs')
  {
    assert StatusInv(k, fs, ref);
    SameTaskRewritten(fs.tasks[ref], fs.tasks[ref], fs.tasks[ref].status, evidence);
    WriteFollows(k, fs, ref, fs.tasks[ref].(evidence := evidence));
  }

  lemma EditFollows(k: Checks, s: State, fs': Files)
    requires Coherent(k) && Inv(k, s) && Follows(k, s.files, fs') && FilesInv(k, fs')
    requires fs'.snapshots == s.files.snapshots
    ensures Inv(k, s.(files := fs'))
  {
    OrderFollows(k, s.files, fs', s.order);
    ClosersFollow(k, s.files, fs', s.closers);
  }

  lemma EditWrites(k: Checks, s: State, ref: string, evidence: Json)
    requires ref in s.files.tasks
    ensures Next(k, s, Edit(ref, evidence))
         == s.(files := Write(s.files, ref, s.files.tasks[ref].(evidence := evidence)))
  {
  }

  lemma EditKeeps(k: Checks, s: State, ref: string, evidence: Json)
    requires Coherent(k) && Inv(k, s) && ref in s.files.tasks
    ensures var s' := Next(k, s, Edit(ref, evidence));
            Inv(k, s') && Follows(k, s.files, s'.files)
  {
    var fs' := Write(s.files, ref, s.files.tasks[ref].(evidence := evidence));
    EditWrites(k, s, ref, evidence);
    EvidenceWriteFollows(k, s.files, ref, evidence);
    EditFollows(k, s, fs');
  }

  /** A step's outcome put back among the other closers. */
  lemma Moved(
    k: Checks, fs: Files, fs': Files, closers: map<nat, Closer>, p: nat, c': Closer, order': seq<string>)
    requires ClosersInv(k, fs, closers) && Follows(k, fs, fs') && FilesInv(k, fs') && CloserInv(k, fs', c')
    requires OrderInv(fs', order')
    ensures Inv(k, State(fs', closers[p := c'], order'))
  {
    ClosersFollow(k, fs, fs', closers);
  }

  lemma MoveKeeps(k: Checks, s: State, p: nat, enoent: bool)
    requires Coherent(k) && Inv(k, s) && p in s.closers
    ensures var s' := Next(k, s, Move(p, enoent));
            Inv(k, s') && Follows(k, s.files, s'.files)
  {
    AdvanceKeeps(k, s.files, s.closers[p], enoent);
    AdvanceOrder(k, s, p, enoent);
    var s' := Next(k, s, Move(p, enoent));
    Moved(k, s.files, s'.files, s.closers, p, s'.closers[p], s'.order);
  }

  lemma InvStep(k: Checks, s: State, e: Event)
    requires Coherent(k) && Inv(k, s) && Enabled(s, e)
    ensures Inv(k, Next(k, s, e)) && Follows(k, s.files, Next(k, s, e).files)
  {
    match e {
      case Spawn(_, _) => FollowsItself(k, s.files);
      case Die(_) => FollowsItself(k, s.files);
      case Edit(ref, evidence) => EditKeeps(k, s, ref, evidence);
      case Move(p, enoent) => MoveKeeps(k, s, p, enoent);
    }
  }

  lemma {:induction false} InvReached(k: Checks, es: seq<Event>, ss: seq<State>, i: nat)
    requires Coherent(k) && IsRun(k, es, ss) && i < |ss|
    ensures Inv(k, ss[i])
  {
    if i > 0 {
      InvReached(k, es, ss, i - 1);
      assert IsStep(k, es, ss, i - 1);
      InvStep(k, ss[i - 1], es[i - 1]);
    }
  }

  lemma RunFollows(k: Checks, es: seq<Event>, ss: seq<State>, i: nat)
    requires Coherent(k) && IsRun(k, es, ss) && i < |es|
    ensures Follows(k, ss[i].files, ss[i + 1].files)
  {
    InvReached(k, es, ss, i);
    assert IsStep(k, es, ss, i);
    InvStep(k, ss[i], es[i]);
  }

  // --- Every run ------------------------------------------------------------------------

  /** A snapshot never changes once it exists. */
  lemma {:induction false} SnapshotsImmutable(k: Checks, es: seq<Event>, ss: seq<State>, i: nat, j: nat, ref: string)
    requires Coherent(k) && IsRun(k, es, ss) && i <= j < |ss| && ref in ss[i].files.snapshots
    ensures ref in ss[j].files.snapshots && ss[j].files.snapshots[ref] == ss[i].files.snapshots[ref]
  {
    if i < j {
      SnapshotsImmutable(k, es, ss, i, j - 1, ref);
      RunFollows(k, es, ss, j - 1);
    }
  }

  /** The status that the one snapshot of a task stands for. */
  predicate StatusOfSnapshot(k: Checks, fs: Files, ref: string, status: TaskStatus) {
    && ref in fs.snapshots && k.status(fs.snapshots[ref].evidence).Some?
    && status == ToTaskStatus(k.status(fs.snapshots[ref].evidence).value)
  }

  lemma AdvanceWrites(k: Checks, fs: Files, c: Closer, enoent: bool, ref: string)
    requires CloserInv(k, fs, c) && ref in fs.tasks
    ensures var fs' := Advance(k, fs, c, enoent).0;
            && ref in fs'.tasks
            && (fs'.tasks[ref] != fs.tasks[ref] ==> StatusOfSnapshot(k, fs', ref, fs'.tasks[ref].status))
  {
  }

  /** Whenever a closer writes a task file, it writes the status of the task's snapshot. */
  lemma WritesSnapshotStatus(k: Checks, es: seq<Event>, ss: seq<State>, i: nat, ref: string)
    requires Coherent(k) && IsRun(k, es, ss) && i < |es| && es[i].Move?
    requires ref in ss[i].files.tasks
    ensures ref in ss[i + 1].files.tasks
    ensures ss[i + 1].files.tasks[ref] != ss[i].files.tasks[ref] ==>
              StatusOfSnapshot(k, ss[i + 1].files, ref, ss[i + 1].files.tasks[ref].status)
  {
    InvReached(k, es, ss, i);
    assert IsStep(k, es, ss, i);
    AdvanceWrites(k, ss[i].files, ss[i].closers[es[i].p], es[i].enoent, ref);
  }

  /** A snapshot's status stays what it was; only closers write statuses. */
  lemma StatusStep(k: Checks, es: seq<Event>, ss: seq<State>, i: nat, ref: string)
    requires Coherent(k) && IsRun(k, es, ss) && i < |es| && ref in ss[i].files.tasks
    ensures ref in ss[i + 1].files.tasks
    ensures || ss[i + 1].files.tasks[ref].status == ss[i].files.tasks[ref].status
            || StatusOfSnapshot(k, ss[i + 1].files, ref, ss[i + 1].files.tasks[ref].status)
  {
    assert IsStep(k, es, ss, i);
    if es[i].Move? {
      WritesSnapshotStatus(k, es, ss, i, ref);
    }
  }

  /** So a task's status is the one it started with, or that of its snapshot. */
  lemma {:induction false} StatusOrigin(k: Checks, es: seq<Event>, ss: seq<State>, i: nat, ref: string)
    requires Coherent(k) && IsRun(k, es, ss) && i < |ss| && ref in ss[0].files.tasks
    ensures ref in ss[i].files.tasks
    ensures || ss[i].files.tasks[ref].status == ss[0].files.tasks[ref].status
            || StatusOfSnapshot(k, ss[i].files, ref, ss[i].files.tasks[ref].status)
  {
    if i > 0 {
      StatusOrigin(k, es, ss, i - 1, ref);
      StatusStep(k, es, ss, i - 1, ref);
      RunFollows(k, es, ss, i - 1);
    }
  }

  /** A closer that has finished reports the status of the task's snapshot. */
  lemma ReportsSnapshotStatus(k: Checks, es: seq<Event>, ss: seq<State>, i: nat, p: nat)
    requires Coherent(k) && IsRun(k, es, ss) && i < |ss| && p in ss[i].closers && ss[i].closers[p].Finished?
    ensures var c := ss[i].closers[p];
            c.ref in ss[i].files.snapshots && k.status(ss[i].files.snapshots[c.ref].evidence) == Some(c.status)
  {
    InvReached(k, es, ss, i);
    assert CloserInv(k, ss[i].files, ss[i].closers[p]);
  }

  /** Any two closers of a task that finish, at whatever time, report the same status. */
  lemma ClosersAgree(k: Checks, es: seq<Event>, ss: seq<State>, i: nat, j: nat, p: nat, q: nat)
    requires Coherent(k) && IsRun(k, es, ss) && i <= j < |ss|
    requires p in ss[i].closers && ss[i].closers[p].Finished?
    requires q in ss[j].closers && ss[j].closers[q].Finished?
    requires ss[i].closers[p].ref == ss[j].closers[q].ref
    ensures ss[i].closers[p].status == ss[j].closers[q].status
  {
    ReportsSnapshotStatus(k, es, ss, i, p);
    ReportsSnapshotStatus(k, es, ss, j, q);
    SnapshotsImmutable(k, es, ss, i, j, ss[i].closers[p].ref);
  }

  /** Each task of the path depends on the next one. */
  predicate DependencyPath(fs: Files, path: seq<string>) {
    && path != []
    && forall i :: 0 <= i < |path| - 1 ==> path[i] in fs.tasks && path[i + 1] in fs.tasks[path[i]].header.dependencies
  }

  lemma PlaceOf(refs: seq<string>, ref: string) returns (i: nat)
    requires ref in refs
    ensures i < |refs| && refs[i] == ref
  {
    i :| 0 <= i < |refs| && refs[i] == ref;
  }

  lemma {:induction false} PathSettled(k: Checks, fs: Files, path: seq<string>, i: nat)
    requires FilesInv(k, fs) && DependencyPath(fs, path) && 0 < i < |path|
    requires path[0] in fs.snapshots
    ensures Settled(k, fs, path[i])
  {
    if i > 1 {
      PathSettled(k, fs, path, i - 1);
    }
    var ref := path[i - 1];
    assert SnapshotInv(k, fs, ref);
    var deps := fs.tasks[ref].header.dependencies;
    var j := PlaceOf(deps, path[i]);
    assert Settled(k, fs, deps[j]);
  }

  /** When a task is closed, everything it depends on, however indirectly, is done with a passed snapshot. */
  lemma DependenciesDone(k: Checks, es: seq<Event>, ss: seq<State>, n: nat, path: seq<string>, i: nat)
    requires Coherent(k) && IsRun(k, es, ss) && n < |ss|
    requires DependencyPath(ss[n].files, path) && 0 < i < |path| && path[0] in ss[n].files.snapshots
    ensures Settled(k, ss[n].files, path[i])
  {
    InvReached(k, es, ss, n);
    PathSettled(k, ss[n].files, path, i);
  }

  /** Along a path of closed tasks, the place in the order of linking goes down. */
  lemma {:induction false} PathDescends(k: Checks, s: State, path: seq<string>, i: nat) returns (a: nat, b: nat)
    requires Inv(k, s) && DependencyPath(s.files, path) && 0 < i < |path| && path[0] in s.files.snapshots
    ensures b < a < |s.order| && s.order[a] == path[0] && s.order[b] == path[i]
  {
    var mid: nat;
    if i == 1 {
      a := PlaceOf(s.order, path[0]);
      mid := a;
    } else {
      a, mid := PathDescends(k, s, path, i - 1);
    }
    assert LinkedBefore(s.files, s.order, mid);
    b := PlaceOf(s.order[..mid], path[i]);
  }

  /** No task on a dependency cycle can ever be closed. */
  lemma CyclesNeverClose(k: Checks, es: seq<Event>, ss: seq<State>, n: nat, path: seq<string>)
    requires Coherent(k) && IsRun(k, es, ss) && n < |ss|
    requires DependencyPath(ss[n].files, path) && |path| > 1 && path[0] == path[|path| - 1]
    ensures path[0] !in ss[n].files.snapshots
    ensures path[0] in ss[n].files.tasks && !ss[n].files.tasks[path[0]].status.Done?
  {
    InvReached(k, es, ss, n);
    if path[0] in ss[n].files.snapshots {
      var a, b := PathDescends(k, ss[n], path, |path| - 1);
    }
    assert StatusInv(k, ss[n].files, path[0]);
  }

  // --- One closer, undisturbed --------------------------------------------------------------

  function Stage(c: Closer): nat {
    match c
    case Reading(_) => 6
    case Checking(_, _, _) => 5
    case CheckingEvidence(_, _, _, _) => 5
    case Probing(_, _) => 4
    case Comparing(_, _) => 3
    case Linking(_, _) => 2
    case Writing(_, _, _) => 1
    case _ => 0
  }

  function Remaining(c: Closer): nat {
    match c
    case Checking(_, run, next) =>
      2 * (if next < |run.header.dependencies| then |run.header.dependencies| - next else 0) + 1
    case CheckingEvidence(_, run, next, _) =>
      2 * (if next < |run.header.dependencies| then |run.header.dependencies| - next else 0)
    case _ => 0
  }

  lemma Progress(k: Checks, fs: Files, c: Closer, enoent: bool)
    requires !(c.Finished? || c.Refused?)
    ensures var c' := Advance(k, fs, c, enoent).1;
            Stage(c') < Stage(c) || (Stage(c') == Stage(c) && Remaining(c') < Remaining(c))
  {
  }

  /** A closer running to its end with nobody else around. */
  function Solo(k: Checks, fs: Files, c: Closer, enoent: bool): (Files, Closer)
    decreases Stage(c), Remaining(c)
  {
    if c.Finished? || c.Refused? then (fs, c)
    else
      var next := Advance(k, fs, c, enoent);
      Progress(k, fs, c, enoent);
      Solo(k, next.0, next.1, enoent)
  }

  lemma SoloStep(k: Checks, fs: Files, c: Closer, enoent: bool)
    requires Advance(k, fs, c, enoent).1.Refused?
    ensures Solo(k, fs, c, enoent) == Advance(k, fs, c, enoent)
  {
  }

  lemma {:induction false} SoloKeeps(k: Checks, fs: Files, c: Closer, enoent: bool)
    requires Coherent(k) && FilesInv(k, fs) && CloserInv(k, fs, c)
    ensures FilesInv(k, Solo(k, fs, c, enoent).0)
    decreases Stage(c), Remaining(c)
  {
    if !(c.Finished? || c.Refused?) {
      var next := Advance(k, fs, c, enoent);
      AdvanceKeeps(k, fs, c, enoent);
      Progress(k, fs, c, enoent);
      SoloKeeps(k, next.0, next.1, enoent);
    }
  }

  /** A dependency counts: it is done, and its snapshot is its own, matches what it requires and says so. */
  predicate Proven(k: Checks, fs: Files, d: string) {
    && d in fs.tasks && fs.tasks[d].status == Done
    && d in fs.snapshots
    && fs.snapshots[d].taskId == fs.tasks[d].header.id
    && k.matches(fs.tasks[d].header.required, fs.snapshots[d].evidence)
    && k.status(fs.snapshots[d].evidence) == Some(Passed)
  }

  /** A dependency that is closed for good passes the dependency checks. */
  lemma SettledIsProven(k: Checks, fs: Files, deps: seq<string>)
    requires Coherent(k) && FilesInv(k, fs) && SettledUpTo(k, fs, deps, |deps|)
    ensures forall d :: d in deps ==> Proven(k, fs, d)
  {
    forall d | d in deps ensures Proven(k, fs, d) {
      var j :| 0 <= j < |deps| && deps[j] == d;
      assert Settled(k, fs, deps[j]) && SnapshotInv(k, fs, d) && StatusInv(k, fs, d);
    }
  }

  lemma {:induction false} SoloChecks(k: Checks, fs: Files, ref: string, run: TaskRun, next: nat, enoent: bool)
    requires next <= |run.header.dependencies| && forall d :: d in run.header.dependencies ==> Proven(k, fs, d)
    ensures Solo(k, fs, Checking(ref, run, next), enoent)
         == Solo(k, fs, Checking(ref, run, |run.header.dependencies|), enoent)
    decreases |run.header.dependencies| - next
  {
    if next < |run.header.dependencies| {
      var d := run.header.dependencies[next];
      assert Proven(k, fs, d);
      SoloChecks(k, fs, ref, run, next + 1, enoent);
      assert Advance(k, fs, Checking(ref, run, next), enoent) == (fs, CheckingEvidence(ref, run, next, fs.tasks[d]));
      assert Advance(k, fs, CheckingEvidence(ref, run, next, fs.tasks[d]), enoent)
          == (fs, Checking(ref, run, next + 1));
    }
  }

  /** The task file as a repeated closure leaves it. */
  function Reclosed(task: TaskRun, status: EvidenceStatus): TaskRun {
    TaskRun(Normalize(task.header), ToTaskStatus(status), task.evidence)
  }

  /**
   * Closing a task that has a snapshot: it succeeds exactly when the evidence now in the
   * task file is acceptable, and then only puts the snapshot's status into the task file.
   */
  lemma CloseWithSnapshot(k: Checks, fs: Files, ref: string, enoent: bool)
    requires Coherent(k) && FilesInv(k, fs) && ref in fs.snapshots
    ensures ref in fs.tasks && k.status(fs.snapshots[ref].evidence).Some?
    ensures var task, status := fs.tasks[ref], k.status(fs.snapshots[ref].evidence).value;
            Solo(k, fs, Reading(ref), enoent) ==
            if k.accepts(task.header.required, Evidence(task))
            then (Write(fs, ref, Reclosed(task, status)), Finished(ref, status))
            else (fs, Refused(ref))
  {
    assert SnapshotInv(k, fs, ref);
    var task := fs.tasks[ref];
    var run := task.(header := Normalize(task.header));
    var n := |run.header.dependencies|;
    assert AllSettled(k, fs, run);
    SettledIsProven(k, fs, run.header.dependencies);
    SoloChecks(k, fs, ref, run, 0, enoent);
    assert Advance(k, fs, Reading(ref), enoent) == (fs, Checking(ref, run, 0));
    if k.accepts(task.header.required, Evidence(task)) {
      var status := k.status(fs.snapshots[ref].evidence).value;
      assert Advance(k, fs, Checking(ref, run, n), enoent) == (fs, Probing(ref, run));
      assert Confirmed(k, fs, ref, run);
      SoloWrites(k, fs, ref, run, status, enoent);
      assert Solo(k, fs, Probing(ref, run), enoent) == Solo(k, fs, Comparing(ref, run), enoent);
    } else {
      assert Advance(k, fs, Checking(ref, run, n), enoent) == (fs, Refused(ref));
    }
  }

  /** What a first closure needs: a valid task, done dependencies, acceptable evidence. */
  predicate Closable(k: Checks, fs: Files, ref: string) {
    && ref in fs.tasks && k.shape(fs.tasks[ref].header)
    && (forall d :: d in fs.tasks[ref].header.dependencies ==> d in fs.tasks && fs.tasks[d].status == Done)
    && k.accepts(fs.tasks[ref].header.required, EnsureRecord(fs.tasks[ref].evidence))
  }

  /** What it leaves: the evidence as the snapshot, and its status in the task file. */
  function FirstClosed(fs: Files, ref: string, status: EvidenceStatus): Files
    requires ref in fs.tasks
  {
    var task := fs.tasks[ref];
    Files(
      fs.tasks[ref := TaskRun(Normalize(task.header), if status == Passed then Done else Blocked, task.evidence)],
      fs.snapshots[ref := Snapshot(task.header.id, EnsureRecord(task.evidence))])
  }

  lemma DoneIsSettled(k: Checks, fs: Files, ref: string, deps: seq<string>)
    requires FilesInv(k, fs) && forall d :: d in deps ==> d in fs.tasks && fs.tasks[d].status == Done
    ensures SettledUpTo(k, fs, deps, |deps|)
  {
    forall j | 0 <= j < |deps| ensures Settled(k, fs, deps[j]) {
      assert StatusInv(k, fs, deps[j]);
    }
  }

  /** The dependency loop stops at the first dependency that does not count. */
  lemma {:induction false} SoloStops(k: Checks, fs: Files, ref: string, run: TaskRun, next: nat, enoent: bool)
    requires next <= |run.header.dependencies|
    requires exists j :: next <= j < |run.header.dependencies| && !Proven(k, fs, run.header.dependencies[j])
    ensures Solo(k, fs, Checking(ref, run, next), enoent) == (fs, Refused(ref))
    decreases |run.header.dependencies| - next
  {
    var d := run.header.dependencies[next];
    if d in fs.tasks && fs.tasks[d].status.Done? {
      var asking := CheckingEvidence(ref, run, next, fs.tasks[d]);
      assert Advance(k, fs, Checking(ref, run, next), enoent) == (fs, asking);
      if Trusted(k, fs, d, fs.tasks[d]) {
        assert Advance(k, fs, asking, enoent) == (fs, Checking(ref, run, next + 1));
        SoloStops(k, fs, ref, run, next + 1, enoent);
      } else {
        SoloStep(k, fs, asking, enoent);
      }
    } else {
      SoloStep(k, fs, Checking(ref, run, next), enoent);
    }
  }

  lemma SoloLinks(k: Checks, fs: Files, ref: string, run: TaskRun, enoent: bool)
    requires ref !in fs.snapshots && k.status(Evidence(run)).Some?
    ensures var status := k.status(Evidence(run)).value;
            Solo(k, fs, Probing(ref, run), enoent)
            == (Write(Link(fs, ref, run), ref, run.(status := ToTaskStatus(status))), Finished(ref, status))
  {
    var status := k.status(Evidence(run)).value;
    assert Advance(k, fs, Probing(ref, run), enoent) == (fs, Linking(ref, run));
    assert Advance(k, fs, Linking(ref, run), enoent) == (Link(fs, ref, run), Writing(ref, run, status));
    SoloWrites(k, Link(fs, ref, run), ref, run, status, enoent);
    assert Solo(k, fs, Probing(ref, run), enoent) == Solo(k, fs, Linking(ref, run), enoent);
  }

  /** Past the dependencies, the evidence decides, and then nothing can go wrong. */
  lemma SoloAccepted(k: Checks, fs: Files, ref: string, run: TaskRun, enoent: bool)
    requires Coherent(k) && ref !in fs.snapshots
    ensures k.accepts(run.header.required, Evidence(run)) ==> k.status(Evidence(run)).Some?
    ensures Solo(k, fs, Checking(ref, run, |run.header.dependencies|), enoent) ==
            if k.accepts(run.header.required, Evidence(run))
            then (Write(Link(fs, ref, run), ref, run.(status := ToTaskStatus(k.status(Evidence(run)).value))),
                  Finished(ref, k.status(Evidence(run)).value))
            else (fs, Refused(ref))
  {
    var checked := Checking(ref, run, |run.header.dependencies|);
    if k.accepts(run.header.required, Evidence(run)) {
      assert Advance(k, fs, checked, enoent) == (fs, Probing(ref, run));
      SoloLinks(k, fs, ref, run, enoent);
    } else {
      assert Advance(k, fs, checked, enoent) == (fs, Refused(ref));
    }
  }

  /**
   * Closing a task that has no snapshot: it succeeds exactly when the task is closable,
   * and then links the evidence and writes its status; otherwise nothing changes.
   */
  lemma CloseWithoutSnapshot(k: Checks, fs: Files, ref: string, enoent: bool)
    requires Coherent(k) && FilesInv(k, fs) && ref !in fs.snapshots
    ensures Closable(k, fs, ref) ==> k.status(EnsureRecord(fs.tasks[ref].evidence)).Some?
    ensures Solo(k, fs, Reading(ref), enoent) ==
            if Closable(k, fs, ref) then
              var status := k.status(EnsureRecord(fs.tasks[ref].evidence)).value;
              (FirstClosed(fs, ref, status), Finished(ref, status))
            else (fs, Refused(ref))
  {
    if ref in fs.tasks && k.shape(fs.tasks[ref].header) {
      var run := fs.tasks[ref].(header := Normalize(fs.tasks[ref].header));
      var deps := run.header.dependencies;
      assert Advance(k, fs, Reading(ref), enoent) == (fs, Checking(ref, run, 0));
      if forall d :: d in deps ==> d in fs.tasks && fs.tasks[d].status == Done {
        DoneIsSettled(k, fs, ref, deps);
        SettledIsProven(k, fs, deps);
        SoloChecks(k, fs, ref, run, 0, enoent);
        SoloAccepted(k, fs, ref, run, enoent);
      } else {
        var d :| d in deps && !(d in fs.tasks && fs.tasks[d].status == Done);
        var j := PlaceOf(deps, d);
        assert !Proven(k, fs, deps[j]);
        SoloStops(k, fs, ref, run, 0, enoent);
      }
    } else {
      assert Advance(k, fs, Reading(ref), enoent) == (fs, Refused(ref));
    }
  }

  /** What any closure needs, whatever the files: every check of the source. */
  predicate Passes(k: Checks, fs: Files, ref: string) {
    && ref in fs.tasks && k.shape(fs.tasks[ref].header)
    && (forall d :: d in fs.tasks[ref].header.dependencies ==> Proven(k, fs, d))
    && k.accepts(fs.tasks[ref].header.required, EnsureRecord(fs.tasks[ref].evidence))
    && (ref in fs.snapshots ==>
          && fs.snapshots[ref].taskId == fs.tasks[ref].header.id
          && k.matches(fs.tasks[ref].header.required, fs.snapshots[ref].evidence)
          && k.status(fs.snapshots[ref].evidence).Some?)
  }

  lemma SoloConfirms(k: Checks, fs: Files, ref: string, run: TaskRun, enoent: bool)
    requires ref in fs.snapshots
    ensures Solo(k, fs, Probing(ref, run), enoent) ==
            if Confirmed(k, fs, ref, run) then
              var status := k.status(fs.snapshots[ref].evidence).value;
              (Write(fs, ref, run.(status := ToTaskStatus(status))), Finished(ref, status))
            else (fs, Refused(ref))
  {
    assert Advance(k, fs, Probing(ref, run), enoent) == (fs, Comparing(ref, run));
    assert Solo(k, fs, Probing(ref, run), enoent) == Solo(k, fs, Comparing(ref, run), enoent);
    if Confirmed(k, fs, ref, run) {
      SoloWrites(k, fs, ref, run, k.status(fs.snapshots[ref].evidence).value, enoent);
    } else if enoent {
      assert Advance(k, fs, Comparing(ref, run), enoent) == (fs, Linking(ref, run));
      SoloStep(k, fs, Linking(ref, run), enoent);
      assert Solo(k, fs, Comparing(ref, run), enoent) == Solo(k, fs, Linking(ref, run), enoent);
    } else {
      SoloStep(k, fs, Comparing(ref, run), enoent);
    }
  }

  lemma ClosesFromChecked(k: Checks, fs: Files, ref: string, run: TaskRun, enoent: bool)
    requires Coherent(k)
    ensures var accepted := k.accepts(run.header.required, Evidence(run));
            && (accepted ==> k.status(Evidence(run)).Some?)
            && Solo(k, fs, Checking(ref, run, |run.header.dependencies|), enoent) ==
               if !accepted || (ref in fs.snapshots && !Confirmed(k, fs, ref, run)) then (fs, Refused(ref))
               else if ref in fs.snapshots then
                 var status := k.status(fs.snapshots[ref].evidence).value;
                 (Write(fs, ref, run.(status := ToTaskStatus(status))), Finished(ref, status))
               else
                 var status := k.status(Evidence(run)).value;
                 (Write(Link(fs, ref, run), ref, run.(status := ToTaskStatus(status))), Finished(ref, status))
  {
    if ref in fs.snapshots {
      var checked := Checking(ref, run, |run.header.dependencies|);
      if k.accepts(run.header.required, Evidence(run)) {
        assert Advance(k, fs, checked, enoent) == (fs, Probing(ref, run));
        SoloConfirms(k, fs, ref, run, enoent);
        assert Solo(k, fs, checked, enoent) == Solo(k, fs, Probing(ref, run), enoent);
      } else {
        SoloStep(k, fs, checked, enoent);
      }
    } else {
      SoloAccepted(k, fs, ref, run, enoent);
    }
  }

  /**
   * Closing a task over any files at all, also such as no run of closures leads to: it
   * succeeds exactly when every check passes, and otherwise changes nothing.
   */
  lemma ClosesExactly(k: Checks, fs: Files, ref: string, enoent: bool)
    requires Coherent(k)
    ensures Passes(k, fs, ref) && ref !in fs.snapshots ==> k.status(EnsureRecord(fs.tasks[ref].evidence)).Some?
    ensures Solo(k, fs, Reading(ref), enoent) ==
            if !Passes(k, fs, ref) then (fs, Refused(ref))
            else if ref in fs.snapshots then
              var status := k.status(fs.snapshots[ref].evidence).value;
              (Files(fs.tasks[ref := Reclosed(fs.tasks[ref], status)], fs.snapshots), Finished(ref, status))
            else
              var status := k.status(EnsureRecord(fs.tasks[ref].evidence)).value;
              (FirstClosed(fs, ref, status), Finished(ref, status))
  {
    if ref in fs.tasks && k.shape(fs.tasks[ref].header) {
      var run := fs.tasks[ref].(header := Normalize(fs.tasks[ref].header));
      var deps := run.header.dependencies;
      assert Advance(k, fs, Reading(ref), enoent) == (fs, Checking(ref, run, 0));
      if d :| d in deps && !Proven(k, fs, d) {
        var j := PlaceOf(deps, d);
        SoloStops(k, fs, ref, run, 0, enoent);
      } else {
        SoloChecks(k, fs, ref, run, 0, enoent);
        ClosesFromChecked(k, fs, ref, run, enoent);
      }
    } else {
      assert Advance(k, fs, Reading(ref), enoent) == (fs, Refused(ref));
    }
  }

  lemma SoloWrites(k: Checks, fs: Files, ref: string, run: TaskRun, status: EvidenceStatus, enoent: bool)
    ensures Solo(k, fs, Writing(ref, run, status), enoent)
         == (Write(fs, ref, run.(status := ToTaskStatus(status))), Finished(ref, status))
  {
  }

  /** One closure alone: the status is that of the snapshot, and nothing else changes. */
  predicate Repaired(k: Checks, before: Files, after: Files, ref: string) {
    && ref in after.tasks && StatusOfSnapshot(k, after, ref, after.tasks[ref].status)
    && after.snapshots == before.snapshots
    && (forall r :: r in before.tasks && r != ref ==> r in after.tasks && after.tasks[r] == before.tasks[r])
  }

  /**
   * After a crash between snapshot and status, closing again repairs the status exactly
   * when the task file's evidence is acceptable, as it is when nobody has edited it;
   * otherwise it changes nothing.
   */
  lemma RepairsAfterCrash(k: Checks, es: seq<Event>, ss: seq<State>, i: nat, ref: string, enoent: bool)
    requires Coherent(k) && IsRun(k, es, ss) && i < |ss| && ref in ss[i].files.snapshots
    ensures ref in ss[i].files.tasks
    ensures var before, task := ss[i].files, ss[i].files.tasks[ref];
            var (after, c) := Solo(k, before, Reading(ref), enoent);
            && (Evidence(task) == before.snapshots[ref].evidence ==> k.accepts(task.header.required, Evidence(task)))
            && (c.Finished? <==> k.accepts(task.header.required, Evidence(task)))
            && (if c.Finished? then Repaired(k, before, after, ref) else after == before)
  {
    InvReached(k, es, ss, i);
    assert SnapshotInv(k, ss[i].files, ref);
    CloseWithSnapshot(k, ss[i].files, ref, enoent);
  }

  /** A closer that gets to writing carries accepted evidence, and does not finish before. */
  predicate Accepted(k: Checks, c: Closer) {
    && !c.Finished?
    && (c.Writing? ==> k.accepts(c.run.header.required, Evidence(c.run)))
  }

  lemma AdvanceAccepts(k: Checks, fs: Files, c: Closer, enoent: bool)
    requires CloserInv(k, fs, c) && Accepted(k, c) && !c.Writing?
    ensures Accepted(k, Advance(k, fs, c, enoent).1)
  {
  }

  /** The task file shows a finished closure: the snapshot's status, and acceptable evidence. */
  predicate Shows(k: Checks, fs: Files, ref: string, status: EvidenceStatus) {
    && ref in fs.tasks && ref in fs.snapshots
    && k.status(fs.snapshots[ref].evidence) == Some(status)
    && Reclosed(fs.tasks[ref], status) == fs.tasks[ref]
    && k.accepts(fs.tasks[ref].header.required, Evidence(fs.tasks[ref]))
  }

  lemma WritingShows(k: Checks, fs: Files, c: Closer)
    requires c.Writing? && CloserInv(k, fs, c) && Accepted(k, c)
    ensures Shows(k, Write(fs, c.ref, c.run.(status := ToTaskStatus(c.status))), c.ref, c.status)
  {
  }

  lemma SoloGoesOn(k: Checks, fs: Files, c: Closer, enoent: bool)
    requires Coherent(k) && FilesInv(k, fs) && CloserInv(k, fs, c) && Accepted(k, c) && !c.Writing? && !c.Refused?
    ensures var (fs', c') := Advance(k, fs, c, enoent);
            && FilesInv(k, fs') && CloserInv(k, fs', c') && Accepted(k, c') && c'.ref == c.ref
            && (Stage(c') < Stage(c) || (Stage(c') == Stage(c) && Remaining(c') < Remaining(c)))
            && Solo(k, fs, c, enoent) == Solo(k, fs', c', enoent)
  {
    AdvanceKeeps(k, fs, c, enoent);
    Progress(k, fs, c, enoent);
    OnlyLinkingLinks(k, fs, c, enoent);
    AdvanceAccepts(k, fs, c, enoent);
  }

  lemma {:induction false} SoloFinishes(k: Checks, fs: Files, c: Closer, enoent: bool)
    requires Coherent(k) && FilesInv(k, fs) && CloserInv(k, fs, c) && Accepted(k, c)
    ensures var (fs', c') := Solo(k, fs, c, enoent);
            c'.Finished? ==> c'.ref == c.ref && Shows(k, fs', c.ref, c'.status)
    decreases Stage(c), Remaining(c)
  {
    if c.Writing? {
      SoloWrites(k, fs, c.ref, c.run, c.status, enoent);
      WritingShows(k, fs, c);
    } else if !c.Refused? {
      var next := Advance(k, fs, c, enoent);
      SoloGoesOn(k, fs, c, enoent);
      SoloFinishes(k, next.0, next.1, enoent);
    }
  }

  /** Closing a closed task again changes nothing. */
  lemma ClosingAgainChangesNothing(k: Checks, fs: Files, ref: string, enoent: bool)
    requires Coherent(k) && FilesInv(k, fs) && Solo(k, fs, Reading(ref), enoent).1.Finished?
    ensures var (fs', c) := Solo(k, fs, Reading(ref), enoent);
            Solo(k, fs', Reading(ref), enoent) == (fs', c)
  {
    var (fs', c) := Solo(k, fs, Reading(ref), enoent);
    SoloFinishes(k, fs, Reading(ref), enoent);
    SoloKeeps(k, fs, Reading(ref), enoent);
    CloseWithSnapshot(k, fs', ref, enoent);
    assert Write(fs', ref, fs'.tasks[ref]) == fs';
  }

  // --- closeTaskRun -----------------------------------------------------------------------------

  class TaskRepository {
    const checks: Checks
    var tasks: map<string, TaskRun>
    var snapshots: map<string, Snapshot>

    function View(): Files
      reads this
    {
      Files(tasks, snapshots)
    }

    constructor (checks: Checks, tasks: map<string, TaskRun>)
      ensures this.checks == checks && View() == Files(tasks, map[])
    {
      this.checks := checks;
      this.tasks, snapshots := tasks, map[];
    }

    /** The steps of one closer that nobody disturbs. None: it throws. */
    method RunCloser(ref: string, enoent: bool) returns (status: Option<EvidenceStatus>)
      modifies this
      ensures (View(), if status.Some? then Finished(ref, status.value) else Refused(ref))
           == Solo(checks, old(View()), Reading(ref), enoent)
    {
      if ref !in tasks || !checks.shape(tasks[ref].header) {
        return None;
      }
      var run := tasks[ref].(header := Normalize(tasks[ref].header));
      var i := 0;
      while i < |run.header.dependencies|
        invariant i <= |run.header.dependencies|
        invariant View() == old(View())
        invariant Solo(checks, View(), Reading(ref), enoent) == Solo(checks, View(), Checking(ref, run, i), enoent)
      {
        var dependency := run.header.dependencies[i];
        if dependency !in tasks || !tasks[dependency].status.Done? {
          return None;
        }
        assert Solo(checks, View(), Checking(ref, run, i), enoent)
            == Solo(checks, View(), CheckingEvidence(ref, run, i, tasks[dependency]), enoent);
        if !Trusted(checks, View(), dependency, tasks[dependency]) {
          SoloStep(checks, View(), CheckingEvidence(ref, run, i, tasks[dependency]), enoent);
          return None;
        }
        i := i + 1;
      }
      if !checks.accepts(run.header.required, Evidence(run)) {
        return None;
      }
      assert Solo(checks, View(), Reading(ref), enoent) == Solo(checks, View(), Probing(ref, run), enoent);
      if ref in snapshots {
        assert Solo(checks, View(), Probing(ref, run), enoent) == Solo(checks, View(), Comparing(ref, run), enoent);
        if Confirmed(checks, View(), ref, run) {
          status := checks.status(snapshots[ref].evidence);
          SoloWrites(checks, View(), ref, run, status.value, enoent);
          tasks := tasks[ref := run.(status := ToTaskStatus(status.value))];
          return;
        }
        SoloStep(checks, View(), Linking(ref, run), enoent);
        if enoent {
          assert Solo(checks, View(), Comparing(ref, run), enoent) == Solo(checks, View(), Linking(ref, run), enoent);
        } else {
          SoloStep(checks, View(), Comparing(ref, run), enoent);
        }
        return None;
      }
      assert Solo(checks, View(), Probing(ref, run), enoent) == Solo(checks, View(), Linking(ref, run), enoent);
      status := checks.status(Evidence(run));
      if status.None? {
        SoloStep(checks, View(), Linking(ref, run), enoent);
      } else {
        SoloWrites(checks, Link(View(), ref, run), ref, run, status.value, enoent);
        snapshots := snapshots[ref := Snapshot(run.header.id, Evidence(run))];
        tasks := tasks[ref := run.(status := ToTaskStatus(status.value))];
      }
    }

    /** The whole call, undisturbed, and what it comes to. None: it throws. */
    method CloseTaskRun(ref: string, enoent: bool) returns (status: Option<EvidenceStatus>)
      modifies this
      ensures (View(), if status.Some? then Finished(ref, status.value) else Refused(ref))
           == Solo(checks, old(View()), Reading(ref), enoent)
      // over any files
      ensures Coherent(checks) ==> (status.Some? <==> Passes(checks, old(View()), ref))
      ensures Coherent(checks) && status.None? ==> View() == old(View())
      // a first closure, exactly
      ensures Coherent(checks) && FilesInv(checks, old(View())) && ref !in old(snapshots) ==>
                && (status.Some? <==> Closable(checks, old(View()), ref))
                && (status.Some? ==> View() == FirstClosed(old(View()), ref, status.value))
                && (status.None? ==> View() == old(View()))
      // and a repeated one
      ensures Coherent(checks) && FilesInv(checks, old(View())) && ref in old(snapshots) ==>
                && ref in old(tasks)
                && (status.Some? <==> checks.accepts(old(tasks)[ref].header.required, Evidence(old(tasks)[ref])))
                && (status.Some? ==> snapshots == old(snapshots)
                                     && tasks == old(tasks)[ref := Reclosed(old(tasks)[ref], status.value)])
                && (status.None? ==> View() == old(View()))
    {
      if Coherent(checks) {
        ClosesExactly(checks, View(), ref, enoent);
      }
      if Coherent(checks) && FilesInv(checks, View()) {
        if ref in snapshots {
          CloseWithSnapshot(checks, View(), ref, enoent);
        } else {
          CloseWithoutSnapshot(checks, View(), ref, enoent);
        }
      }
      status := RunCloser(ref, enoent);
    }
  }
}

/**
 * Runs of adapter steps: what they leave of the tree they started from, and why a run
 * can be repeated.
 */
module AdapterRuns {
  import opened Wrappers
  import opened FileTree
  import opened AdapterOps

  /** Steps one after the other; None: one of them throws. */
  function Fold<O, S>(step: (O, S) -> Option<S>, ops: seq<O>, s: S): Option<S> {
    if ops == [] then Some(s)
    else
      match Fold(step, ops[..|ops| - 1], s)
      case None => None
      case Some(u) => step(ops[|ops| - 1], u)
  }

  lemma {:induction false} FoldAppend<O, S>(step: (O, S) -> Option<S>, a: seq<O>, b: seq<O>, s: S)
    ensures Fold(step, a + b, s) == match Fold(step, a, s) case None => None case Some(u) => Fold(step, b, u)
  {
    if b == [] {
      assert a + b == a;
    } else {
      var front := b[..|b| - 1];
      assert (a + b)[..|a + b| - 1] == a + front;
      FoldAppend(step, a, front, s);
    }
  }

  /** What every step carries over holds to the end. */
  lemma {:induction false} FoldCarries<O, S(!new)>(
    step: (O, S) -> Option<S>, ops: seq<O>, i: nat, s: S, holds: S -> bool)
    requires i <= |ops| && Fold(step, ops, s).Some?
    requires Fold(step, ops[..i], s).Some? ==> holds(Fold(step, ops[..i], s).value)
    requires forall j, u :: i <= j < |ops| && holds(u) && step(ops[j], u).Some? ==> holds(step(ops[j], u).value)
    ensures holds(Fold(step, ops, s).value)
  {
    if i == |ops| {
      assert ops[..i] == ops;
    } else {
      var front := ops[..|ops| - 1];
      assert front[..i] == ops[..i];
      FoldCarries(step, front, i, s, holds);
    }
  }

  /** When each step succeeds on what the steps before it have led to, all do. */
  lemma {:induction false} FoldSucceeds<O, S>(step: (O, S) -> Option<S>, ops: seq<O>, n: nat, s: S)
    requires n <= |ops|
    requires forall j :: 0 <= j < n && Fold(step, ops[..j], s).Some? ==>
               step(ops[j], Fold(step, ops[..j], s).value).Some?
    ensures Fold(step, ops[..n], s).Some?
  {
    if n > 0 {
      FoldSucceeds(step, ops, n - 1, s);
      assert ops[..n][..n - 1] == ops[..n - 1];
    }
  }

  function Run(ops: seq<Op>, t: Tree): Option<Tree> {
    Fold(Apply, ops, t)
  }

  lemma RunAppend(a: seq<Op>, b: seq<Op>, t: Tree)
    ensures Run(a + b, t) == match Run(a, t) case None => None case Some(u) => Run(b, u)
  {
    FoldAppend(Apply, a, b, t);
  }

  lemma PrefixRuns(ops: seq<Op>, i: nat, t: Tree)
    requires i <= |ops| && Run(ops, t).Some?
    ensures Run(ops[..i], t).Some?
  {
    assert ops[..i] + ops[i..] == ops;
    RunAppend(ops[..i], ops[i..], t);
  }

  predicate AllSeparate(ops: seq<Op>) {
    forall op :: op in ops ==> Separate(op)
  }

  ghost predicate SameAgents(t: Tree, u: Tree) {
    forall q :: AGENTS <= q ==> Lookup(t, q) == Lookup(u, q)
  }

  lemma EffectFromAgents(op: Op, t: Tree, u: Tree, p: Path)
    requires Separate(op) && SameAgents(t, u)
    ensures EffectOf(op, t, p) == EffectOf(op, u, p)
  {
    match op {
      case Mirror(source, target, github) =>
        assert AGENTS <= source + ["SKILL.md"];
        if target <= p {
          assert AGENTS <= source + p[|target|..];
        }
      case Prompt(_, prompt, _, _) => assert Lookup(t, prompt) == Lookup(u, prompt);
      case _ =>
    }
  }

  /** Nothing under `.agents` is ever touched. */
  lemma {:induction false} RunKeepsAgents(ops: seq<Op>, t: Tree)
    requires AllSeparate(ops) && Run(ops, t).Some?
    ensures SameAgents(t, Run(ops, t).value)
  {
    if ops != [] {
      var front, last := ops[..|ops| - 1], ops[|ops| - 1];
      RunKeepsAgents(front, t);
      var u := Run(front, t).value;
      forall q | AGENTS <= q ensures Lookup(t, q) == Lookup(Run(ops, t).value, q) {
        StepEffect(last, u, q);
        Untouched(last, u, q);
      }
    }
  }

  lemma Untouched(op: Op, t: Tree, q: Path)
    requires Separate(op) && AGENTS <= q
    ensures EffectOf(op, t, q) == None
  {
  }

  /** What the steps together do to a path: the effect of the last that touches it. */
  function Outcome(ops: seq<Op>, t: Tree, p: Path): Effect {
    if ops == [] then None
    else
      var last := EffectOf(ops[|ops| - 1], t, p);
      if last.Some? then last else Outcome(ops[..|ops| - 1], t, p)
  }

  lemma {:induction false} RunLookup(ops: seq<Op>, t: Tree, p: Path)
    requires AllSeparate(ops) && Run(ops, t).Some?
    ensures Lookup(Run(ops, t).value, p) == After(Outcome(ops, t, p), Lookup(t, p))
  {
    if ops != [] {
      var front, last := ops[..|ops| - 1], ops[|ops| - 1];
      RunLookup(front, t, p);
      RunKeepsAgents(front, t);
      var u := Run(front, t).value;
      StepEffect(last, u, p);
      EffectFromAgents(last, t, u, p);
    }
  }

  lemma {:induction false} OutcomeFromAgents(ops: seq<Op>, t: Tree, u: Tree, p: Path)
    requires AllSeparate(ops) && SameAgents(t, u)
    ensures Outcome(ops, t, p) == Outcome(ops, u, p)
  {
    if ops != [] {
      EffectFromAgents(ops[|ops| - 1], t, u, p);
      OutcomeFromAgents(ops[..|ops| - 1], t, u, p);
    }
  }

  lemma SameTree(t: Tree, u: Tree)
    requires forall p :: Lookup(t, p) == Lookup(u, p)
    ensures t == u
  {
    forall p ensures p in t <==> p in u {
      assert Lookup(t, p) == Lookup(u, p);
    }
    forall p | p in t ensures t[p] == u[p] {
      assert Lookup(t, p) == Lookup(u, p);
    }
  }

  /** Repeating a run, when it succeeds again, changes nothing. */
  lemma RepeatChangesNothing(ops: seq<Op>, t: Tree)
    requires AllSeparate(ops) && Run(ops, t).Some? && Run(ops, Run(ops, t).value).Some?
    ensures Run(ops, Run(ops, t).value) == Run(ops, t)
  {
    var u := Run(ops, t).value;
    var v := Run(ops, u).value;
    RunKeepsAgents(ops, t);
    forall p ensures Lookup(v, p) == Lookup(u, p) {
      RunLookup(ops, t, p);
      RunLookup(ops, u, p);
      OutcomeFromAgents(ops, t, u, p);
    }
    SameTree(v, u);
  }

  // --- Why it succeeds again ------------------------------------------------------------

  predicate Masks(op: Op, p: Path) {
    match op
    case Clean(dir) => p <= dir || dir <= p
    case Remove(file) => p == file
    case Adapter(target, _) => p <= target
    case Emit(target, _) => p == target
    case Mirror(_, target, _) => p <= target || target <= p
    case ReadPrompt(_) => false
    case Prompt(target, _, _, _) => p <= target
    case Throw => false
  }

  predicate MaskedBy(ops: seq<Op>, n: nat, p: Path)
    requires n <= |ops|
  {
    exists j :: 0 <= j < n && Masks(ops[j], p)
  }

  lemma {:induction false} OutcomeMask(ops: seq<Op>, t: Tree, p: Path)
    ensures Outcome(ops, t, p).Some? <==> MaskedBy(ops, |ops|, p)
  {
    if ops != [] {
      var front := ops[..|ops| - 1];
      OutcomeMask(front, t, p);
      if MaskedBy(front, |front|, p) {
        var j :| 0 <= j < |front| && Masks(front[j], p);
        assert ops[j] == front[j];
      }
      if MaskedBy(ops, |ops|, p) && !Masks(ops[|ops| - 1], p) {
        var j :| 0 <= j < |ops| && Masks(ops[j], p);
        assert front[j] == ops[j];
      }
    }
  }

  predicate InClean(cleans: seq<Path>, p: Path) {
    exists d :: d in cleans && d <= p
  }

  /** The place a step makes or writes. */
  function Target(op: Op): Option<Path> {
    match op
    case Clean(dir) => Some(dir)
    case Adapter(target, _) => Some(target)
    case Emit(target, _) => Some(target)
    case Mirror(_, target, _) => Some(target)
    case Prompt(target, _, _, _) => Some(target)
    case _ => None
  }

  /**
   * The order of a run: some directories of depth two are emptied, then single files are
   * removed, then everything is generated.  Later deletions stay in the emptied
   * directories, and what is removed lies outside them and is not made a directory.
   */
  predicate Tidy(cleans: seq<Path>, r: nat, ops: seq<Op>) {
    && |cleans| <= r <= |ops|
    && (forall d :: d in cleans ==> |d| == 2)
    && (forall i :: 0 <= i < |cleans| ==> ops[i] == Clean(cleans[i]))
    && (forall i :: |cleans| <= i < r ==> ops[i].Remove? && RemovesApart(cleans, ops, ops[i].file))
    && (forall i :: r <= i < |ops| ==> Generates(cleans, ops[i]))
  }

  /** A generating step, with deletions only in the emptied directories. */
  predicate Generates(cleans: seq<Path>, op: Op) {
    match op
    case Clean(dir) => InClean(cleans, dir)
    case Remove(_) => false
    case Mirror(_, target, _) => InClean(cleans, target)
    case Emit(target, _) => InClean(cleans, Parent(target))
    case _ => true
  }

  /** A file to remove that is outside the emptied directories and on no step's way. */
  predicate RemovesApart(cleans: seq<Path>, ops: seq<Op>, file: Path)
    requires |cleans| <= |ops|
  {
    && !InClean(cleans, file)
    && (forall q :: q in Prefixes(file) && q != file ==> MaskedBy(ops, |cleans|, q))
    && (forall op :: op in ops ==> OffTheWay(op, file))
  }

  predicate OffTheWay(op: Op, file: Path) {
    Target(op).Some? ==> !(file < Target(op).value)
  }

  /** Deletes everything from `p` down, or some of what is above it. */
  predicate Removes(op: Op, p: Path) {
    (op.Clean? && op.dir <= p) || (op.Mirror? && op.target <= p)
  }

  lemma RemovalInClean(cleans: seq<Path>, r: nat, ops: seq<Op>, i: nat, p: Path)
    requires Tidy(cleans, r, ops) && i < |ops| && Removes(ops[i], p)
    ensures InClean(cleans, p)
  {
    if i < |cleans| {
      assert cleans[i] in cleans;
    } else {
      assert Generates(cleans, ops[i]);
      var d :| d in cleans && d <= (if ops[i].Clean? then ops[i].dir else ops[i].target);
      assert d <= p;
    }
  }

  lemma NoRemoval(cleans: seq<Path>, r: nat, ops: seq<Op>, i: nat, p: Path)
    requires Tidy(cleans, r, ops) && i < |ops| && !InClean(cleans, p)
    ensures !Removes(ops[i], p)
  {
    if Removes(ops[i], p) {
      RemovalInClean(cleans, r, ops, i, p);
    }
  }

  lemma StepKeepsDir(op: Op, u: Tree, p: Path)
    requires Separate(op) && Apply(op, u).Some? && !Removes(op, p) && IsDir(u, p)
    ensures IsDir(Apply(op, u).value, p)
  {
    StepEffect(op, u, p);
  }

  lemma StepKeepsFile(op: Op, u: Tree, p: Path)
    requires Separate(op) && Apply(op, u).Some? && !Removes(op, p) && !op.Remove? && IsFile(u, p)
    ensures IsFile(Apply(op, u).value, p)
  {
    StepEffect(op, u, p);
  }

  lemma StepMakesNoDir(op: Op, u: Tree, p: Path)
    requires Separate(op) && Apply(op, u).Some? && !Removes(op, p) && !IsDir(u, p)
    requires OffTheWay(op, p)
    ensures !IsDir(Apply(op, u).value, p)
  {
    StepEffect(op, u, p);
  }

  lemma LastStep(ops: seq<Op>, n: nat, t: Tree)
    requires 0 < n <= |ops| && Run(ops[..n], t).Some?
    ensures Run(ops[..n - 1], t).Some? && Run(ops[..n], t) == Apply(ops[n - 1], Run(ops[..n - 1], t).value)
  {
    assert ops[..n][..n - 1] == ops[..n - 1];
  }

  /** A directory that no later step removes stays one. */
  lemma StaysDir(ops: seq<Op>, i: nat, t: Tree, p: Path)
    requires AllSeparate(ops) && i <= |ops| && Run(ops, t).Some?
    requires Run(ops[..i], t).Some? && IsDir(Run(ops[..i], t).value, p)
    requires forall j :: i <= j < |ops| ==> !Removes(ops[j], p)
    ensures IsDir(Run(ops, t).value, p)
  {
    forall j, u | i <= j < |ops| && IsDir(u, p) && Apply(ops[j], u).Some? ensures IsDir(Apply(ops[j], u).value, p) {
      assert ops[j] in ops;
      StepKeepsDir(ops[j], u, p);
    }
    FoldCarries(Apply, ops, i, t, u => IsDir(u, p));
  }

  /** So does a file. */
  lemma StaysFile(ops: seq<Op>, i: nat, t: Tree, p: Path)
    requires AllSeparate(ops) && i <= |ops| && Run(ops, t).Some?
    requires Run(ops[..i], t).Some? && IsFile(Run(ops[..i], t).value, p)
    requires forall j :: i <= j < |ops| ==> !Removes(ops[j], p) && !ops[j].Remove?
    ensures IsFile(Run(ops, t).value, p)
  {
    forall j, u | i <= j < |ops| && IsFile(u, p) && Apply(ops[j], u).Some? ensures IsFile(Apply(ops[j], u).value, p) {
      assert ops[j] in ops;
      StepKeepsFile(ops[j], u, p);
    }
    FoldCarries(Apply, ops, i, t, u => IsFile(u, p));
  }

  /** What is on no step's way does not become a directory. */
  lemma StaysNoDir(ops: seq<Op>, i: nat, t: Tree, p: Path)
    requires AllSeparate(ops) && i <= |ops| && Run(ops, t).Some?
    requires Run(ops[..i], t).Some? && !IsDir(Run(ops[..i], t).value, p)
    requires forall j :: i <= j < |ops| ==> !Removes(ops[j], p) && OffTheWay(ops[j], p)
    ensures !IsDir(Run(ops, t).value, p)
  {
    forall j, u | i <= j < |ops| && !IsDir(u, p) && Apply(ops[j], u).Some? ensures !IsDir(Apply(ops[j], u).value, p) {
      assert ops[j] in ops;
      StepMakesNoDir(ops[j], u, p);
    }
    FoldCarries(Apply, ops, i, t, u => !IsDir(u, p));
  }

  /** A tree with the same `.agents` that otherwise holds no more than a run's result. */
  ghost predicate Within(u: Tree, final: Tree) {
    SameAgents(u, final) && forall p :: Lookup(u, p) == Lookup(final, p) || Lookup(u, p) == None
  }

  /** At a step of the second run, each path is as in the first run, or as in its result, or free. */
  lemma SecondRunLookup(ops: seq<Op>, i: nat, t: Tree, u: Tree, p: Path)
    requires AllSeparate(ops) && i <= |ops| && Run(ops, t).Some? && Within(u, Run(ops, t).value)
    requires Run(ops[..i], t).Some? && Run(ops[..i], u).Some?
    ensures MaskedBy(ops, i, p) ==> Lookup(Run(ops[..i], u).value, p) == Lookup(Run(ops[..i], t).value, p)
    ensures !MaskedBy(ops, i, p) ==>
              || Lookup(Run(ops[..i], u).value, p) == Lookup(Run(ops, t).value, p)
              || Lookup(Run(ops[..i], u).value, p) == None
  {
    RunKeepsAgents(ops, t);
    RunLookup(ops[..i], t, p);
    RunLookup(ops[..i], u, p);
    OutcomeFromAgents(ops[..i], t, u, p);
    OutcomeMask(ops[..i], t, p);
    MaskedPrefix(ops, i, p);
  }

  lemma MaskedPrefix(ops: seq<Op>, i: nat, p: Path)
    requires i <= |ops|
    ensures MaskedBy(ops[..i], i, p) <==> MaskedBy(ops, i, p)
  {
    if MaskedBy(ops, i, p) {
      var j :| 0 <= j < i && Masks(ops[j], p);
      assert ops[..i][j] == ops[j];
    }
  }

  /** What lies in an emptied place, or above one, has been touched once they are emptied. */
  lemma CleanedIsMasked(cleans: seq<Path>, r: nat, ops: seq<Op>, i: nat, p: Path)
    requires Tidy(cleans, r, ops) && |cleans| <= i <= |ops| && InClean(cleans, p)
    ensures MaskedBy(ops, i, p)
  {
    var d :| d in cleans && d <= p;
    var j :| 0 <= j < |cleans| && cleans[j] == d;
    assert Masks(ops[j], p);
  }

  // --- The second run ---------------------------------------------------------------------

  /** What the i-th step of both runs sees: the tree in the first run, in the second, and the result. */
  ghost predicate Aligned(ops: seq<Op>, i: nat, a: Tree, b: Tree, final: Tree)
    requires i <= |ops|
  {
    && SameAgents(a, b)
    && (forall p :: MaskedBy(ops, i, p) ==> Lookup(b, p) == Lookup(a, p))
    && (forall p :: !MaskedBy(ops, i, p) ==> Lookup(b, p) == Lookup(final, p) || Lookup(b, p) == None)
  }

  lemma RunsAligned(ops: seq<Op>, i: nat, t: Tree, u: Tree)
    requires AllSeparate(ops) && i <= |ops| && Run(ops, t).Some? && Within(u, Run(ops, t).value)
    requires Run(ops[..i], t).Some? && Run(ops[..i], u).Some?
    ensures Aligned(ops, i, Run(ops[..i], t).value, Run(ops[..i], u).value, Run(ops, t).value)
  {
    var a, b := Run(ops[..i], t).value, Run(ops[..i], u).value;
    RunKeepsAgents(ops, t);
    RunKeepsAgents(ops[..i], t);
    RunKeepsAgents(ops[..i], u);
    forall p ensures MaskedBy(ops, i, p) ==> Lookup(b, p) == Lookup(a, p)
             ensures !MaskedBy(ops, i, p) ==> Lookup(b, p) == Lookup(Run(ops, t).value, p) || Lookup(b, p) == None
    {
      SecondRunLookup(ops, i, t, u, p);
    }
  }

  /** Where the first run made its way, the second finds it clear. */
  lemma WayStaysClear(ops: seq<Op>, i: nat, a: Tree, b: Tree, final: Tree, target: Path)
    requires i <= |ops| && Aligned(ops, i, a, b, final) && ClearWay(a, target)
    requires forall q :: q < target && !MaskedBy(ops, i, q) ==> IsDir(final, q)
    ensures ClearWay(b, target)
  {
    forall q | q in b && q < target ensures b[q].Dir? {
      if MaskedBy(ops, i, q) {
        assert Lookup(b, q) == Lookup(a, q);
      } else {
        assert Lookup(b, q) == Lookup(final, q);
      }
    }
  }

  lemma SourcesStay(a: Tree, b: Tree, op: Op)
    requires SameAgents(a, b) && Separate(op)
    ensures op.Mirror? ==> (Copyable(a, op.source, op.github) <==> Copyable(b, op.source, op.github))
    ensures op.ReadPrompt? ==> (IsFile(a, op.prompt) <==> IsFile(b, op.prompt))
    ensures op.Prompt? ==> (IsFile(a, op.prompt) <==> IsFile(b, op.prompt))
  {
    if op.Mirror? {
      assert AGENTS <= op.source + ["SKILL.md"] && AGENTS <= op.source + ["skill.md"];
      assert Lookup(a, op.source + ["SKILL.md"]) == Lookup(b, op.source + ["SKILL.md"]);
      assert Lookup(a, op.source + ["skill.md"]) == Lookup(b, op.source + ["skill.md"]);
      assert Lookup(a, op.source) == Lookup(b, op.source);
    }
    if op.ReadPrompt? || op.Prompt? {
      assert Lookup(a, op.prompt) == Lookup(b, op.prompt);
    }
  }

  /** What the result has at the places that a step touches. */
  ghost predicate ResultFits(ops: seq<Op>, i: nat, op: Op, final: Tree)
    requires i <= |ops|
  {
    match op
    case Clean(dir) => forall q :: q < dir && !MaskedBy(ops, i, q) ==> IsDir(final, q)
    case Remove(file) =>
      && (forall q :: q < file ==> MaskedBy(ops, i, q))
      && (!MaskedBy(ops, i, file) ==> !IsDir(final, file))
    case Adapter(target, _) =>
      && (forall q :: q < target && !MaskedBy(ops, i, q) ==> IsDir(final, q))
      && (!MaskedBy(ops, i, target) ==> !IsDir(final, target))
    case Emit(target, _) => MaskedBy(ops, i, Parent(target)) && (!MaskedBy(ops, i, target) ==> !IsDir(final, target))
    case Mirror(_, target, _) => forall q :: q < target && !MaskedBy(ops, i, q) ==> IsDir(final, q)
    case Prompt(target, _, _, _) =>
      && (forall q :: q < target && !MaskedBy(ops, i, q) ==> IsDir(final, q))
      && (!MaskedBy(ops, i, target) ==> !IsDir(final, target))
    case _ => true
  }

  lemma StepOkAgain(ops: seq<Op>, i: nat, op: Op, a: Tree, b: Tree, final: Tree)
    requires i <= |ops| && Aligned(ops, i, a, b, final) && Separate(op) && Succeeds(op, a)
    requires ResultFits(ops, i, op, final)
    ensures Succeeds(op, b)
  {
    SourcesStay(a, b, op);
    match op {
      case Clean(dir) => WayStaysClear(ops, i, a, b, final, dir);
      case Remove(file) =>
        WayStaysClear(ops, i, a, b, final, file);
        assert MaskedBy(ops, i, file) ==> Lookup(b, file) == Lookup(a, file);
      case Adapter(target, _) =>
        WayStaysClear(ops, i, a, b, final, target);
        assert MaskedBy(ops, i, target) ==> Lookup(b, target) == Lookup(a, target);
      case Emit(target, _) =>
        assert Lookup(b, Parent(target)) == Lookup(a, Parent(target));
        assert MaskedBy(ops, i, target) ==> Lookup(b, target) == Lookup(a, target);
      case Mirror(_, target, _) => WayStaysClear(ops, i, a, b, final, target);
      case Prompt(target, _, _, _) =>
        WayStaysClear(ops, i, a, b, final, target);
        assert MaskedBy(ops, i, target) ==> Lookup(b, target) == Lookup(a, target);
      case ReadPrompt(_) =>
      case Throw =>
    }
  }

  lemma StepMakesWay(op: Op, u: Tree, q: Path)
    requires Separate(op) && Apply(op, u).Some?
    requires Target(op).Some? && !op.Emit? && q < Target(op).value
    ensures IsDir(Apply(op, u).value, q)
  {
    StepEffect(op, u, q);
  }

  lemma StepWrites(op: Op, u: Tree)
    requires Separate(op) && Apply(op, u).Some?
    ensures op.Adapter? || op.Emit? || op.Prompt? ==> IsFile(Apply(op, u).value, Target(op).value)
    ensures op.Remove? ==> !IsDir(Apply(op, u).value, op.file)
  {
    if op.Adapter? || op.Emit? || op.Prompt? {
      StepEffect(op, u, Target(op).value);
    }
  }

  /** Outside what is touched so far, no deletion of the run can reach. */
  lemma UntouchedOutside(cleans: seq<Path>, r: nat, ops: seq<Op>, i: nat, q: Path)
    requires Tidy(cleans, r, ops) && i < |ops| && !MaskedBy(ops, i, q)
    requires i < |cleans| ==> q < cleans[i]
    ensures forall j :: 0 <= j < |ops| ==> !Removes(ops[j], q)
  {
    if i >= |cleans| && InClean(cleans, q) {
      CleanedIsMasked(cleans, r, ops, i, q);
    }
    forall j | 0 <= j < |ops| ensures !Removes(ops[j], q) {
      NoRemoval(cleans, r, ops, j, q);
    }
  }

  lemma Stepped(ops: seq<Op>, i: nat, t: Tree)
    requires AllSeparate(ops) && i < |ops| && Run(ops, t).Some?
    ensures Separate(ops[i]) && Run(ops[..i], t).Some? && Run(ops[..i + 1], t).Some?
    ensures Run(ops[..i + 1], t) == Apply(ops[i], Run(ops[..i], t).value)
    ensures Run(ops[..|ops|], t) == Run(ops, t)
  {
    PrefixRuns(ops, i + 1, t);
    LastStep(ops, i + 1, t);
    assert ops[i] in ops && ops[..|ops|] == ops;
  }

  /** The way a step made is there in the result. */
  lemma WayInResult(cleans: seq<Path>, r: nat, ops: seq<Op>, i: nat, t: Tree, q: Path)
    requires Tidy(cleans, r, ops) && AllSeparate(ops) && i < |ops| && Run(ops, t).Some?
    requires Target(ops[i]).Some? && !ops[i].Emit? && q < Target(ops[i]).value && !MaskedBy(ops, i, q)
    ensures IsDir(Run(ops, t).value, q)
  {
    Stepped(ops, i, t);
    StepMakesWay(ops[i], Run(ops[..i], t).value, q);
    assert i < |cleans| ==> ops[i] == Clean(cleans[i]);
    UntouchedOutside(cleans, r, ops, i, q);
    StaysDir(ops, i + 1, t, q);
  }

  /** The file a step wrote is one in the result. */
  lemma FileInResult(cleans: seq<Path>, r: nat, ops: seq<Op>, i: nat, t: Tree)
    requires Tidy(cleans, r, ops) && AllSeparate(ops) && r <= i < |ops| && Run(ops, t).Some?
    requires (ops[i].Adapter? || ops[i].Emit? || ops[i].Prompt?) && !MaskedBy(ops, i, Target(ops[i]).value)
    ensures IsFile(Run(ops, t).value, Target(ops[i]).value)
  {
    Stepped(ops, i, t);
    StepWrites(ops[i], Run(ops[..i], t).value);
    UntouchedOutside(cleans, r, ops, i, Target(ops[i]).value);
    assert forall j :: i + 1 <= j < |ops| ==> Generates(cleans, ops[j]) && !ops[j].Remove?;
    StaysFile(ops, i + 1, t, Target(ops[i]).value);
  }

  lemma RemovedInResult(cleans: seq<Path>, r: nat, ops: seq<Op>, i: nat, t: Tree)
    requires Tidy(cleans, r, ops) && AllSeparate(ops) && |cleans| <= i < r && Run(ops, t).Some?
    ensures !IsDir(Run(ops, t).value, ops[i].file)
  {
    var p := ops[i].file;
    Stepped(ops, i, t);
    StepWrites(ops[i], Run(ops[..i], t).value);
    assert RemovesApart(cleans, ops, p);
    forall j | i + 1 <= j < |ops| ensures !Removes(ops[j], p) && OffTheWay(ops[j], p) {
      NoRemoval(cleans, r, ops, j, p);
      assert ops[j] in ops;
    }
    StaysNoDir(ops, i + 1, t, p);
  }

  lemma MaskedLater(ops: seq<Op>, n: nat, i: nat, q: Path)
    requires n <= i <= |ops| && MaskedBy(ops, n, q)
    ensures MaskedBy(ops, i, q)
  {
    var j :| 0 <= j < n && Masks(ops[j], q);
  }

  lemma StepFits(cleans: seq<Path>, r: nat, ops: seq<Op>, i: nat, t: Tree)
    requires Tidy(cleans, r, ops) && AllSeparate(ops) && i < |ops| && Run(ops, t).Some?
    ensures ResultFits(ops, i, ops[i], Run(ops, t).value)
  {
    var op, final := ops[i], Run(ops, t).value;
    if Target(op).Some? && !op.Emit? {
      forall q | q < Target(op).value && !MaskedBy(ops, i, q) ensures IsDir(final, q) {
        WayInResult(cleans, r, ops, i, t, q);
      }
    }
    if i >= r && (op.Adapter? || op.Emit? || op.Prompt?) && !MaskedBy(ops, i, Target(op).value) {
      FileInResult(cleans, r, ops, i, t);
    }
    if op.Emit? {
      assert Generates(cleans, op);
      CleanedIsMasked(cleans, r, ops, i, Parent(op.target));
    }
    if op.Remove? {
      RemovedInResult(cleans, r, ops, i, t);
      assert RemovesApart(cleans, ops, op.file);
      forall q | q < op.file ensures MaskedBy(ops, i, q) {
        assert q in Prefixes(op.file);
        MaskedLater(ops, |cleans|, i, q);
      }
    }
  }

  /** A step that succeeded in the first run succeeds in the second. */
  lemma NextRunsAgain(cleans: seq<Path>, r: nat, ops: seq<Op>, i: nat, t: Tree, u: Tree)
    requires Tidy(cleans, r, ops) && AllSeparate(ops) && i < |ops|
    requires Run(ops, t).Some? && Within(u, Run(ops, t).value) && Run(ops[..i], u).Some?
    ensures Apply(ops[i], Run(ops[..i], u).value).Some?
  {
    Stepped(ops, i, t);
    RunsAligned(ops, i, t, u);
    StepFits(cleans, r, ops, i, t);
    var a, b := Run(ops[..i], t).value, Run(ops[..i], u).value;
    StepEffect(ops[i], a, []);
    StepOkAgain(ops, i, ops[i], a, b, Run(ops, t).value);
    StepEffect(ops[i], b, []);
  }

  /** A tidy run that succeeds on a tree succeeds on every tree within its result. */
  lemma RunsAgain(cleans: seq<Path>, r: nat, ops: seq<Op>, t: Tree, u: Tree)
    requires Tidy(cleans, r, ops) && AllSeparate(ops)
    requires Run(ops, t).Some? && Within(u, Run(ops, t).value)
    ensures Run(ops, u).Some?
  {
    forall j | 0 <= j < |ops| && Run(ops[..j], u).Some? ensures Apply(ops[j], Run(ops[..j], u).value).Some? {
      NextRunsAgain(cleans, r, ops, j, t, u);
    }
    FoldSucceeds(Apply, ops, |ops|, u);
    assert ops[..|ops|] == ops;
  }
}

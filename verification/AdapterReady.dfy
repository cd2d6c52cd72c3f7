/**
 * When a synchronization and a check succeed (syncProviderAdapters and checkProviderAdapters in
 * scripts/agentic/sync-provider-adapters.ts), told from the registry and the tree before them.
 */
module AdapterReady {
  import opened Wrappers
  import opened FileTree
  import opened AdapterOps
  import opened AdapterRuns
  import opened AdapterPlan
  import opened AdapterRegistry
  import opened AdapterOutcome
  import opened AdapterResult
  import opened AdapterSync

  /** The source can be copied; GitHub's mirrors need a skill file that can be copied beside itself. */
  predicate SourceReady(t: Tree, s: Skill, mirror: Raw) {
    var source := Normal(s.canonical);
    && source in t
    && (|mirror| > 2 && mirror[0] == ".github" && mirror[1] == "skills" && source + ["SKILL.md"] in t ==>
          t[source].Dir? && IsFile(t, source + ["SKILL.md"]) && !IsDir(t, source + ["skill.md"]))
  }

  /** The place of a file is no directory, and no directory above it is a file. */
  predicate Free(t: Tree, p: Path) {
    !IsDir(t, p) && forall q :: q in t && q < p ==> t[q].Dir?
  }

  /** The tree has all sources, and nothing that is in the way of what is generated. */
  ghost predicate Ready(reg: Registry, t: Tree) {
    && (forall p :: p in reg.providers && p.name != "gemini" ==> p.root != Some([""]))
    && !IsFile(t, []) && !IsFile(t, [".claude"]) && !IsFile(t, [".github"])
    && (forall a :: RootAdapter(a) ==> !IsDir(t, a))
    && (forall p :: IsJob(reg, RootFile(p)) ==> !IsDir(t, JobTarget(RootFile(p))))
    && (forall s, m :: IsJob(reg, SkillMirror(s, m)) ==> SourceReady(t, s, m))
    && (forall c :: c in reg.customs ==> IsFile(t, Normal(c.prompt)))
    && (forall c, m :: IsJob(reg, CustomMirror(c, m)) && !InEmptied(reg, Normal(m.1)) ==> Free(t, Normal(m.1)))
  }

  // --- A tree that is ready ---------------------------------------------------------------

  /** The first steps of the plan have led from one tree to the other. */
  ghost predicate Reached(r: Renderers, reg: Registry, t: Tree, j: nat, u: Tree) {
    j <= |Plan(r, reg)| && Run(Plan(r, reg)[..j], t) == Some(u)
  }

  ghost predicate Settled(reg: Registry) {
    Valid(reg) && Ordinary(reg) && JobsApart(reg) && RootsGiven(reg)
  }

  lemma ReachedLookup(r: Renderers, reg: Registry, t: Tree, j: nat, u: Tree, q: Path)
    requires Settled(reg) && Reached(r, reg, t, j, u)
    ensures Lookup(u, q) == After(Outcome(Plan(r, reg)[..j], t, q), Lookup(t, q))
    ensures SameAgents(t, u)
    ensures forall op :: op in Plan(r, reg)[..j] ==> Purpose(reg, op)
  {
    PlanPlaces(r, reg);
    PlanPurpose(r, reg);
    var ops := Plan(r, reg)[..j];
    assert forall op :: op in ops ==> op in Plan(r, reg);
    RunLookup(ops, t, q);
    RunKeepsAgents(ops, t);
  }

  /** When no step has this effect, neither has the run; when one has some, so has the run. */
  lemma {:induction false} NeverEffect(ops: seq<Op>, t: Tree, p: Path, bad: Effect -> bool)
    requires !bad(None) && forall op :: op in ops ==> !bad(EffectOf(op, t, p))
    ensures !bad(Outcome(ops, t, p))
    ensures (exists op :: op in ops && EffectOf(op, t, p).Some?) ==> Outcome(ops, t, p).Some?
  {
    if ops != [] {
      var front, last := ops[..|ops| - 1], ops[|ops| - 1];
      assert ops == front + [last];
      NeverEffect(front, t, p, bad);
    }
  }

  predicate ToFile(e: Effect) {
    e.Some? && e.value.Some? && e.value.value.File?
  }

  predicate ToDir(e: Effect) {
    e == Some(Some(Dir))
  }

  lemma EmptiedSoFar(r: Renderers, reg: Registry, j: nat, d: Path)
    requires Settled(reg) && |CleanDirs(reg)| <= j <= |Plan(r, reg)| && Emptied(reg, d)
    ensures Clean(d) in Plan(r, reg)[..j]
  {
    CleanInPlan(r, reg, d);
    var cleans := CleanOps(CleanDirs(reg));
    var i :| 0 <= i < |cleans| && cleans[i] == Clean(d);
    assert Plan(r, reg)[..j][i] == Clean(d);
  }

  /** What is on the way is no file when it is needed. */
  lemma NoFileOnTheWay(r: Renderers, reg: Registry, t: Tree, j: nat, u: Tree, q: Path)
    requires Settled(reg) && Ready(reg, t) && Reached(r, reg, t, j, u)
    requires OnTheWay(reg, q) && (|q| < 2 || j >= |CleanDirs(reg)|)
    ensures !IsFile(u, q)
  {
    var ops := Plan(r, reg)[..j];
    ReachedLookup(r, reg, t, j, u, q);
    forall op | op in ops ensures !ToFile(EffectOf(op, t, q)) {
      WayEffect(reg, op, t, q);
    }
    NeverEffect(ops, t, q, ToFile);
    if |q| >= 2 && InEmptied(reg, q) {
      var d :| Emptied(reg, d) && d <= q;
      EmptiedSoFar(r, reg, j, d);
      assert EffectOf(Clean(d), t, q).Some?;
    } else {
      NoFileYet(reg, t, q);
    }
  }

  lemma NoFileYet(reg: Registry, t: Tree, q: Path)
    requires Settled(reg) && Ready(reg, t) && OnTheWay(reg, q) && (|q| < 2 || !InEmptied(reg, q))
    ensures !IsFile(t, q)
  {
    CleanedDirs(reg);
    if d :| Emptied(reg, d) && q <= d {
      assert KnownDir(d);
      assert q == d[..|q|];
      assert |q| == 1 ==> q == [d[0]];
      assert |q| >= 2 ==> q == d;
    } else {
      var x :| IsJob(reg, x) && q < JobTarget(x);
      JobNoFileYet(reg, t, q, x);
    }
  }

  lemma JobNoFileYet(reg: Registry, t: Tree, q: Path, x: Job)
    requires Settled(reg) && Ready(reg, t) && IsJob(reg, x) && q < JobTarget(x)
    requires |q| < 2 || !InEmptied(reg, q)
    ensures !IsFile(t, q)
  {
    TargetPlaces(reg, x);
    if |q| < 2 {
      PlaceParts(JobTarget(x));
      assert q == JobTarget(x)[..|q|];
      assert |q| == 1 ==> q == [JobTarget(x)[0]];
    } else if x.CustomMirror? {
      if InEmptied(reg, JobTarget(x)) {
        AboveInEmptied(reg, q, JobTarget(x));
      } else {
        assert IsJob(reg, CustomMirror(x.c, x.custom)) && Free(t, Normal(x.custom.1));
      }
    } else if !x.RootFile? {
      JobInEmptied(reg, x);
      AboveInEmptied(reg, q, JobTarget(x));
    }
  }

  lemma JobInEmptied(reg: Registry, x: Job)
    requires Settled(reg) && IsJob(reg, x) && (x.AgentFile? || x.SkillMirror?)
    ensures InEmptied(reg, JobTarget(x))
  {
    TargetPlaces(reg, x);
    if x.AgentFile? {
      assert Parent(JobTarget(x)) <= JobTarget(x);
    }
  }

  lemma AboveInEmptied(reg: Registry, q: Path, p: Path)
    requires Settled(reg) && InEmptied(reg, p) && q <= p && |q| >= 2
    ensures InEmptied(reg, q)
  {
    CleanedDirs(reg);
    var d :| Emptied(reg, d) && d <= p;
    assert KnownDir(d) && d <= q;
  }

  /** The place of a file: a root adapter, or what a job writes. */
  ghost predicate FilePlace(reg: Registry, p: Path) {
    RootAdapter(p) || exists x :: IsJob(reg, x) && !x.SkillMirror? && JobTarget(x) == p
  }

  lemma FilePlaceEffect(reg: Registry, op: Op, t: Tree, p: Path)
    requires Settled(reg) && Purpose(reg, op) && FilePlace(reg, p)
    ensures !ToDir(EffectOf(op, t, p))
    ensures !op.Mirror? || !(op.target <= p)
  {
    FilePlaceOffTheWay(reg, p);
    if op.Clean? {
      assert !(p <= op.dir);
    } else if Target(op).Some? {
      var y := PurposeJob(reg, op);
      assert !(p < JobTarget(y));
      if op.Mirror? {
        MirrorNotAbove(reg, y, p);
      }
    }
  }

  lemma FilePlaceOffTheWay(reg: Registry, p: Path)
    requires Settled(reg) && FilePlace(reg, p)
    ensures !OnTheWay(reg, p)
  {
    if RootAdapter(p) {
      RemovedOffTheWay(reg, p);
    } else {
      var x :| IsJob(reg, x) && !x.SkillMirror? && JobTarget(x) == p;
      if OnTheWay(reg, p) {
        NotAboveTheWay(reg, x, p);
      }
    }
  }

  lemma MirrorNotAbove(reg: Registry, y: Job, p: Path)
    requires Settled(reg) && IsJob(reg, y) && y.SkillMirror? && FilePlace(reg, p)
    ensures !(JobTarget(y) <= p)
  {
    if RootAdapter(p) {
      TargetPlaces(reg, y);
      RemovedOffTheWay(reg, p);
      var d :| Emptied(reg, d) && d < JobTarget(y);
      assert JobTarget(y) <= p ==> d <= p;
    } else {
      var x :| IsJob(reg, x) && !x.SkillMirror? && JobTarget(x) == p;
      assert Apart(JobTarget(x), JobTarget(y));
    }
  }

  /** The place of a file is no directory when it is written or removed. */
  lemma NoDirAtFile(r: Renderers, reg: Registry, t: Tree, j: nat, u: Tree, p: Path)
    requires Settled(reg) && Ready(reg, t) && Reached(r, reg, t, j, u)
    requires FilePlace(reg, p) && j >= |CleanDirs(reg)|
    ensures !IsDir(u, p)
  {
    var ops := Plan(r, reg)[..j];
    ReachedLookup(r, reg, t, j, u, p);
    forall op | op in ops ensures !ToDir(EffectOf(op, t, p)) {
      FilePlaceEffect(reg, op, t, p);
    }
    NeverEffect(ops, t, p, ToDir);
    if d :| Emptied(reg, d) && d <= p {
      EmptiedSoFar(r, reg, j, d);
      assert EffectOf(Clean(d), t, p).Some?;
    } else {
      NoDirYet(reg, t, p);
    }
  }

  lemma NoDirYet(reg: Registry, t: Tree, p: Path)
    requires Settled(reg) && Ready(reg, t) && FilePlace(reg, p) && !InEmptied(reg, p)
    ensures !IsDir(t, p)
  {
    if !RootAdapter(p) {
      var x :| IsJob(reg, x) && !x.SkillMirror? && JobTarget(x) == p;
      TargetPlaces(reg, x);
      if x.CustomMirror? {
        assert IsJob(reg, CustomMirror(x.c, x.custom)) && Free(t, Normal(x.custom.1));
      } else if x.RootFile? {
        assert IsJob(reg, RootFile(x.p));
      } else {
        JobInEmptied(reg, x);
      }
    }
  }

  lemma AgentDirThere(r: Renderers, reg: Registry, t: Tree, j: nat, u: Tree, d: Path)
    requires Settled(reg) && Reached(r, reg, t, j, u) && Emptied(reg, d) && j >= |CleanDirs(reg)|
    ensures IsDir(u, d)
  {
    var ops := Plan(r, reg)[..j];
    ReachedLookup(r, reg, t, j, u, d);
    CleanedDirs(reg);
    assert OnTheWay(reg, d);
    forall op | op in ops ensures !(op.Clean? && op.dir < d) {
      assert Purpose(reg, op);
    }
    WayOutcome(r, reg, ops, t, d);
    EmptiedSoFar(r, reg, j, d);
    assert EffectOf(Clean(d), t, d) == Some(Some(Dir));
  }

  lemma WayClearNow(r: Renderers, reg: Registry, t: Tree, j: nat, u: Tree, p: Path)
    requires Settled(reg) && Ready(reg, t) && Reached(r, reg, t, j, u)
    requires forall q :: q < p ==> OnTheWay(reg, q)
    requires |p| <= 2 || j >= |CleanDirs(reg)|
    ensures ClearWay(u, p)
  {
    forall q | q in u && q < p ensures u[q].Dir? {
      NoFileOnTheWay(r, reg, t, j, u, q);
    }
  }

  lemma AboveAdapter(reg: Registry, a: Path)
    requires RootAdapter(a)
    ensures forall q :: q < a ==> OnTheWay(reg, q)
  {
    assert Emptied(reg, GITHUB_SKILLS);
    forall q | q < a ensures OnTheWay(reg, q) {
      assert q == a[..|q|];
      assert q <= GITHUB_SKILLS;
    }
  }

  lemma LaterStep(r: Renderers, reg: Registry, j: nat)
    requires j < |CleanDirs(reg)|
    ensures |Plan(r, reg)| > j && Plan(r, reg)[j].Clean?
  {
    assert Plan(r, reg)[j] == CleanOps(CleanDirs(reg))[j];
  }

  lemma FileStepReady(r: Renderers, reg: Registry, t: Tree, j: nat, u: Tree, x: Job)
    requires Settled(reg) && Ready(reg, t) && Reached(r, reg, t, j, u)
    requires IsJob(reg, x) && !x.SkillMirror? && j >= |CleanDirs(reg)|
    ensures JobTarget(x) != [] && ClearWay(u, JobTarget(x)) && !IsDir(u, JobTarget(x))
    ensures x.AgentFile? ==> IsDir(u, Parent(JobTarget(x)))
  {
    TargetPlaces(reg, x);
    PlaceParts(JobTarget(x));
    assert FilePlace(reg, JobTarget(x));
    NoDirAtFile(r, reg, t, j, u, JobTarget(x));
    WayClearNow(r, reg, t, j, u, JobTarget(x));
    if x.AgentFile? {
      AgentDirThere(r, reg, t, j, u, Parent(JobTarget(x)));
    }
  }

  lemma MirrorReady(reg: Registry, t: Tree, u: Tree, s: Skill, m: Raw)
    requires Settled(reg) && IsJob(reg, SkillMirror(s, m)) && SameAgents(t, u)
    ensures SourceReady(t, s, m) <==> Copyable(u, Normal(s.canonical), IsGithubSkill(m))
  {
    var source := Normal(s.canonical);
    assert ValidSkill(reg, s);
    assert AGENTS <= source + ["SKILL.md"] && AGENTS <= source + ["skill.md"];
    assert Lookup(t, source + ["SKILL.md"]) == Lookup(u, source + ["SKILL.md"]);
    assert Lookup(t, source + ["skill.md"]) == Lookup(u, source + ["skill.md"]);
    assert Lookup(t, source) == Lookup(u, source);
  }

  lemma MirrorStepReady(r: Renderers, reg: Registry, t: Tree, j: nat, u: Tree, op: Op)
    requires Settled(reg) && Ready(reg, t) && Reached(r, reg, t, j, u) && SameAgents(t, u)
    requires Purpose(reg, op) && op.Mirror? && j >= |CleanDirs(reg)|
    ensures Succeeds(op, u)
  {
    var s, m :| IsJob(reg, SkillMirror(s, m)) && op == MirrorOp(s, m)[0] && op.target == JobTarget(SkillMirror(s, m));
    MirrorReady(reg, t, u, s, m);
    WayClearNow(r, reg, t, j, u, op.target);
  }

  lemma StepKnown(r: Renderers, reg: Registry, t: Tree, j: nat, u: Tree)
    requires Settled(reg) && Reached(r, reg, t, j, u) && j < |Plan(r, reg)|
    ensures Purpose(reg, Plan(r, reg)[j]) && SameAgents(t, u)
    ensures Plan(r, reg)[j].Clean? || j >= |CleanDirs(reg)|
  {
    PlanPurpose(r, reg);
    assert Plan(r, reg)[j] in Plan(r, reg);
    ReachedLookup(r, reg, t, j, u, []);
    if j < |CleanDirs(reg)| {
      LaterStep(r, reg, j);
    }
  }

  /** Every step of the plan succeeds when its turn comes. */
  lemma StepReady(r: Renderers, reg: Registry, t: Tree, j: nat, u: Tree, op: Op)
    requires Settled(reg) && Ready(reg, t) && Reached(r, reg, t, j, u)
    requires Purpose(reg, op) && SameAgents(t, u) && (op.Clean? || j >= |CleanDirs(reg)|)
    ensures Succeeds(op, u)
  {
    match op {
      case Clean(dir) => WayClearNow(r, reg, t, j, u, dir);
      case Remove(file) =>
        AboveAdapter(reg, file);
        WayClearNow(r, reg, t, j, u, file);
        NoDirAtFile(r, reg, t, j, u, file);
      case ReadPrompt(prompt) => PromptStays(reg, t, u, prompt);
      case Throw =>
      case Mirror(source, target, github) =>
        MirrorStepReady(r, reg, t, j, u, op);
      case Prompt(_, prompt, _, _) =>
        var x := PurposeJob(reg, op);
        FileStepReady(r, reg, t, j, u, x);
        PromptStays(reg, t, u, prompt);
      case _ =>
        var x := PurposeJob(reg, op);
        FileStepReady(r, reg, t, j, u, x);
    }
  }

  lemma PromptStays(reg: Registry, t: Tree, u: Tree, prompt: Path)
    requires Ordinary(reg) && SameAgents(t, u) && exists c :: c in reg.customs && prompt == Normal(c.prompt)
    ensures IsFile(t, prompt) <==> IsFile(u, prompt)
  {
    assert Lookup(t, prompt) == Lookup(u, prompt);
  }

  lemma ReadySucceeds(r: Renderers, reg: Registry, t: Tree)
    requires Valid(reg) && Ordinary(reg) && JobsApart(reg) && Ready(reg, t)
    ensures Sync(r, reg, t).Some?
  {
    var ops := Plan(r, reg);
    PlanPlaces(r, reg);
    forall j | 0 <= j < |ops| && Run(ops[..j], t).Some? ensures Apply(ops[j], Run(ops[..j], t).value).Some? {
      StepKnown(r, reg, t, j, Run(ops[..j], t).value);
      StepReady(r, reg, t, j, Run(ops[..j], t).value, ops[j]);
      assert ops[j] in ops;
      StepEffect(ops[j], Run(ops[..j], t).value, []);
    }
    FoldSucceeds(Apply, ops, |ops|, t);
    assert ops[..|ops|] == ops;
  }

  // --- A synchronization that succeeded was ready -------------------------------------------

  lemma PurposeKeeps(reg: Registry, op: Op, q: Path)
    requires Purpose(reg, op) && !InEmptied(reg, q)
    requires forall x :: IsJob(reg, x) && x.SkillMirror? ==> !(JobTarget(x) <= q)
    ensures !Removes(op, q) && (op.Remove? ==> RootAdapter(op.file))
  {
    if op.Mirror? {
      var y := PurposeJob(reg, op);
    }
  }

  /** A file or directory that no step removes is still there at the end. */
  lemma EntryStays(r: Renderers, reg: Registry, t: Tree, q: Path)
    requires Settled(reg) && Sync(r, reg, t).Some? && q in t && !InEmptied(reg, q)
    requires forall x :: IsJob(reg, x) && x.SkillMirror? ==> !(JobTarget(x) <= q)
    ensures IsDir(t, q) ==> IsDir(Sync(r, reg, t).value, q)
    ensures IsFile(t, q) && !RootAdapter(q) ==> IsFile(Sync(r, reg, t).value, q)
  {
    var ops := Plan(r, reg);
    PlanPlaces(r, reg);
    PlanPurpose(r, reg);
    forall j | 0 <= j < |ops| ensures !Removes(ops[j], q) && (ops[j].Remove? ==> RootAdapter(ops[j].file)) {
      assert ops[j] in ops;
      PurposeKeeps(reg, ops[j], q);
    }
    assert ops[..0] == [];
    if IsDir(t, q) {
      StaysDir(ops, 0, t, q);
    } else if !RootAdapter(q) {
      StaysFileUnlessRemoved(ops, t, q);
    }
  }

  lemma StaysFileUnlessRemoved(ops: seq<Op>, t: Tree, q: Path)
    requires AllSeparate(ops) && Run(ops, t).Some? && IsFile(t, q)
    requires forall j :: 0 <= j < |ops| ==> !Removes(ops[j], q) && (ops[j].Remove? ==> ops[j].file != q)
    ensures IsFile(Run(ops, t).value, q)
  {
    forall j, u | 0 <= j < |ops| && IsFile(u, q) && Apply(ops[j], u).Some? ensures IsFile(Apply(ops[j], u).value, q) {
      assert ops[j] in ops;
      StepEffect(ops[j], u, q);
    }
    assert ops[..0] == [];
    FoldCarries(Apply, ops, 0, t, u => IsFile(u, q));
  }

  /** No file is where a directory is made and nothing is emptied. */
  lemma WayWasFree(r: Renderers, reg: Registry, t: Tree, q: Path)
    requires Settled(reg) && Sync(r, reg, t).Some? && OnTheWay(reg, q) && !InEmptied(reg, q)
    ensures !IsFile(t, q)
  {
    forall x | IsJob(reg, x) ensures !(JobTarget(x) <= q) {
      NotAboveTheWay(reg, x, q);
    }
    assert !Generated(reg, q);
    SyncElsewhere(r, reg, t, q);
    if RootAdapter(q) {
      RemovedOffTheWay(reg, q);
    }
    if IsFile(t, q) {
      EntryStays(r, reg, t, q);
    }
  }

  /** No directory is where a file is written or removed and nothing is emptied. */
  lemma FileWasFree(r: Renderers, reg: Registry, t: Tree, p: Path)
    requires Settled(reg) && Sync(r, reg, t).Some? && FilePlace(reg, p) && !InEmptied(reg, p)
    ensures !IsDir(t, p)
  {
    forall y | IsJob(reg, y) && y.SkillMirror? ensures !(JobTarget(y) <= p) {
      MirrorNotAbove(reg, y, p);
    }
    if IsDir(t, p) {
      EntryStays(r, reg, t, p);
    }
    if x :| IsJob(reg, x) && JobTarget(x) == p {
      SyncGenerates(r, reg, t, x);
      assert !IsDir(Sync(r, reg, t).value, p);
    } else {
      FilePlaceOffTheWay(reg, p);
      SyncElsewhere(r, reg, t, p);
    }
  }

  lemma SourceWasReady(r: Renderers, reg: Registry, t: Tree, s: Skill, m: Raw)
    requires Settled(reg) && Sync(r, reg, t).Some? && IsJob(reg, SkillMirror(s, m))
    ensures SourceReady(t, s, m)
  {
    JobInPlan(r, reg, SkillMirror(s, m));
    PlanPlaces(r, reg);
    var u := StepTaken(Plan(r, reg), JobOp(r, SkillMirror(s, m)), t);
    MirrorReady(reg, t, u, s, m);
  }

  lemma SucceededReady(r: Renderers, reg: Registry, t: Tree)
    requires Ordinary(reg) && JobsApart(reg) && Sync(r, reg, t).Some?
    ensures Ready(reg, t)
  {
    SyncRootsGiven(r, reg, t);
    forall q | q in [[], [".claude"], [".github"]] ensures !IsFile(t, q) {
      SpineOnTheWay(reg, q);
      WayWasFree(r, reg, t, q);
    }
    forall a | RootAdapter(a) ensures !IsDir(t, a) {
      RemovedOffTheWay(reg, a);
      FileWasFree(r, reg, t, a);
    }
    forall p | IsJob(reg, RootFile(p)) ensures !IsDir(t, JobTarget(RootFile(p))) {
      RootNotEmptied(reg, p);
      FileWasFree(r, reg, t, JobTarget(RootFile(p)));
    }
    forall s, m | IsJob(reg, SkillMirror(s, m)) ensures SourceReady(t, s, m) {
      SourceWasReady(r, reg, t, s, m);
    }
    forall c | c in reg.customs ensures IsFile(t, Normal(c.prompt)) {
      PromptThere(r, reg, t, c);
    }
    forall c, m | IsJob(reg, CustomMirror(c, m)) && !InEmptied(reg, Normal(m.1)) ensures Free(t, Normal(m.1)) {
      CustomWasFree(r, reg, t, c, m);
    }
  }

  lemma SpineOnTheWay(reg: Registry, q: Path)
    requires Settled(reg) && q in [[], [".claude"], [".github"]]
    ensures OnTheWay(reg, q) && !InEmptied(reg, q)
  {
    assert Emptied(reg, CLAUDE_SKILLS) && Emptied(reg, GITHUB_SKILLS);
    assert [".claude"] <= CLAUDE_SKILLS && [".github"] <= GITHUB_SKILLS;
    CleanedDirs(reg);
    forall d | Emptied(reg, d) ensures !(d <= q) {
      assert KnownDir(d);
    }
  }

  lemma RootNotEmptied(reg: Registry, p: Provider)
    requires Settled(reg) && IsJob(reg, RootFile(p))
    ensures !InEmptied(reg, JobTarget(RootFile(p)))
  {
    CleanedDirs(reg);
    TargetPlaces(reg, RootFile(p));
    forall d | Emptied(reg, d) ensures !(d <= JobTarget(RootFile(p))) {
      assert KnownDir(d) && Apart(d, JobTarget(RootFile(p)));
    }
  }

  lemma CustomWasFree(r: Renderers, reg: Registry, t: Tree, c: CustomAgent, m: (string, Raw))
    requires Settled(reg) && Sync(r, reg, t).Some? && IsJob(reg, CustomMirror(c, m)) && !InEmptied(reg, Normal(m.1))
    ensures Free(t, Normal(m.1))
  {
    var p := Normal(m.1);
    assert JobTarget(CustomMirror(c, m)) == p;
    FileWasFree(r, reg, t, p);
    forall q | q in t && q < p ensures t[q].Dir? {
      assert !InEmptied(reg, q);
      WayWasFree(r, reg, t, q);
    }
  }

  // --- The theorem ------------------------------------------------------------------------

  /** A synchronization succeeds exactly for a valid registry and a tree that is ready for it. */
  lemma SyncSucceedsExactly(r: Renderers, reg: Registry, t: Tree)
    requires Ordinary(reg) && JobsApart(reg)
    ensures Sync(r, reg, t).Some? <==> Valid(reg) && Ready(reg, t)
  {
    if Sync(r, reg, t).Some? {
      SucceededReady(r, reg, t);
    }
    if Valid(reg) && Ready(reg, t) {
      ReadySucceeds(r, reg, t);
    }
  }

  // --- The check ------------------------------------------------------------------------------

  /** The staging directory is ready when the repository is. */
  lemma StageReady(reg: Registry, t: Tree)
    requires Settled(reg) && Ready(reg, t)
    ensures Ready(reg, Stage(t))
  {
    var u := Stage(t);
    StageWorse(t);
    forall p | IsJob(reg, RootFile(p)) ensures !IsDir(u, JobTarget(RootFile(p))) {
      TargetPlaces(reg, RootFile(p));
      NotInSpine(JobTarget(RootFile(p)));
    }
    forall s, m | IsJob(reg, SkillMirror(s, m)) ensures SourceReady(u, s, m) {
      SourceStaged(reg, t, s, m);
    }
    forall c | c in reg.customs ensures IsFile(u, Normal(c.prompt)) {
      assert Lookup(u, Normal(c.prompt)) == Lookup(t, Normal(c.prompt));
    }
    forall c, m | IsJob(reg, CustomMirror(c, m)) && !InEmptied(reg, Normal(m.1)) ensures Free(u, Normal(m.1)) {
      TargetPlaces(reg, CustomMirror(c, m));
      FreeStaged(t, Normal(m.1));
    }
  }

  /** The staging directory has no file that is not there, and no directory but above a surface. */
  lemma StageWorse(t: Tree)
    ensures SameAgents(t, Stage(t))
    ensures forall q :: IsFile(Stage(t), q) ==> Lookup(t, q) == Lookup(Stage(t), q)
    ensures forall q :: IsDir(Stage(t), q) ==> IsDir(t, q) || q in [[], [".claude"], [".github"]]
  {
    forall q ensures IsFile(Stage(t), q) ==> Lookup(t, q) == Lookup(Stage(t), q)
             ensures IsDir(Stage(t), q) ==> IsDir(t, q) || q in [[], [".claude"], [".github"]]
             ensures AGENTS <= q ==> Lookup(Stage(t), q) == Lookup(t, q)
    {
      StageLookup(t, q);
    }
  }

  lemma NotInSpine(p: Path)
    requires forall d :: KnownDir(d) ==> !(p <= d)
    ensures p !in [[], [".claude"], [".github"]]
  {
    assert [".claude"] <= CLAUDE_SKILLS && [".github"] <= GITHUB_SKILLS && [] <= GITHUB_SKILLS;
    assert KnownDir(CLAUDE_SKILLS) && KnownDir(GITHUB_SKILLS);
  }

  lemma SourceStaged(reg: Registry, t: Tree, s: Skill, m: Raw)
    requires Settled(reg) && IsJob(reg, SkillMirror(s, m)) && SourceReady(t, s, m)
    ensures SourceReady(Stage(t), s, m)
  {
    StageWorse(t);
    MirrorReady(reg, t, Stage(t), s, m);
    MirrorReady(reg, Stage(t), Stage(t), s, m);
  }

  lemma FreeStaged(t: Tree, p: Path)
    requires Free(t, p) && |p| > 2
    ensures Free(Stage(t), p)
  {
    StageWorse(t);
    forall q | q in Stage(t) && q < p ensures Stage(t)[q].Dir? {
      if IsFile(Stage(t), q) {
        assert Lookup(t, q) == Lookup(Stage(t), q);
      }
    }
  }

  /** A surface that is there has the files that it has in the other tree. */
  ghost predicate FilesAgree(t: Tree, synced: Tree, s: Path) {
    && (IsFile(t, s) ==> Lookup(synced, s) == Lookup(t, s))
    && (IsDir(t, s) ==> forall p :: s <= p && (IsFile(t, p) || IsFile(synced, p)) ==> Lookup(synced, p) == Lookup(t, p))
  }

  /**
   * Where a synchronization succeeds, the check succeeds exactly when each generated
   * surface that is there has the files that the synchronization would leave.
   */
  lemma CheckFilesExactly(r: Renderers, reg: Registry, t: Tree)
    requires Ordinary(reg) && JobsApart(reg) && Sync(r, reg, t).Some?
    ensures Check(r, reg, t) <==>
            forall s :: s in [["CODEX.md"], ["CLAUDE.md"], [".github", "copilot-instructions.md"],
                              [".claude", "agents"], [".claude", "skills"],
                              [".github", "agents"], [".github", "skills"]] ==>
              FilesAgree(t, Sync(r, reg, t).value, s)
  {
    var synced := Sync(r, reg, t).value;
    SyncRootsGiven(r, reg, t);
    SyncSucceedsExactly(r, reg, t);
    StageReady(reg, t);
    SyncSucceedsExactly(r, reg, Stage(t));
    CheckExactly(r, reg, t);
    forall s | s in SURFACES ensures SurfaceCurrent(t, synced, s) <==> FilesAgree(t, synced, s) {
      FilesAgreeExactly(t, synced, s);
    }
  }

  lemma FilesAgreeExactly(t: Tree, synced: Tree, s: Path)
    ensures SurfaceCurrent(t, synced, s) <==> FilesAgree(t, synced, s)
  {
  }

  // --- An example ---------------------------------------------------------------------------

  const CODEX := Provider("codex", None, None, None)
  const CLAUDE := Provider("claude", None, Some([".claude", "agents"]), None)
  const PLANNER := Agent("planner", map["claude" := "planner"])
  const SMALL := Registry([CODEX, CLAUDE], [PLANNER], [], [])

  /** A tree that holds nothing but `.agents`. */
  const FRESH: Tree := map[[] := Dir, [".agents"] := Dir]

  lemma SmallJobs(x: Job)
    ensures IsJob(SMALL, x) <==> x == RootFile(CODEX) || x == RootFile(CLAUDE) || x == AgentFile(CLAUDE, PLANNER)
  {
  }

  lemma SmallTargets()
    ensures JobTarget(RootFile(CODEX)) == ["CODEX.md"] && JobTarget(RootFile(CLAUDE)) == ["CLAUDE.md"]
    ensures JobTarget(AgentFile(CLAUDE, PLANNER)) == [".claude", "agents", "planner.md"]
    ensures Normal([".claude", "agents"]) == [".claude", "agents"]
  {
    PlainStays([".claude", "agents"], []);
    assert [] + [".claude", "agents"] == [".claude", "agents"];
    assert "planner" + ".md" == "planner.md";
  }

  lemma FirstPartsApart(a: Path, b: Path)
    requires a != [] && b != [] && a[0] != b[0]
    ensures Apart(a, b) && Apart(b, a)
  {
  }

  lemma SmallApart()
    ensures JobsApart(SMALL)
  {
    SmallTargets();
    assert "CODEX.md"[1] == 'O' && "CLAUDE.md"[1] == 'L' && ".claude"[1] == 'c';
    FirstPartsApart(["CODEX.md"], ["CLAUDE.md"]);
    FirstPartsApart(["CODEX.md"], [".claude", "agents", "planner.md"]);
    FirstPartsApart(["CLAUDE.md"], [".claude", "agents", "planner.md"]);
    forall x, y | IsJob(SMALL, x) && IsJob(SMALL, y) && x != y ensures Apart(JobTarget(x), JobTarget(y)) {
      SmallJobs(x);
      SmallJobs(y);
    }
  }

  lemma SmallProviders()
    ensures ValidProvider(CODEX) && ValidProvider(CLAUDE) && HasProvider(SMALL, "claude")
  {
    SmallTargets();
    assert SMALL.providers[1] == CLAUDE && CLAUDE in SMALL.providers;
    assert ".claude"[1] == 'c';
  }

  lemma SmallValid()
    ensures Valid(SMALL) && Ordinary(SMALL)
  {
    SmallProviders();
    assert Plain("planner" + ".md") by {
      assert ("planner" + ".md")[0] == 'p' && |"planner" + ".md"| == 10;
    }
  }

  lemma SmallReady()
    ensures Ready(SMALL, FRESH)
  {
    SmallTargets();
    Names();
    forall p | IsJob(SMALL, RootFile(p)) ensures !IsDir(FRESH, JobTarget(RootFile(p))) {
      SmallJobs(RootFile(p));
    }
    forall s, m ensures !IsJob(SMALL, SkillMirror(s, m)) {
      SmallJobs(SkillMirror(s, m));
    }
    forall c, m ensures !IsJob(SMALL, CustomMirror(c, m)) {
      SmallJobs(CustomMirror(c, m));
    }
  }

  /** A first synchronization generates what the registry asks for. */
  lemma FirstSync(r: Renderers)
    ensures Sync(r, SMALL, FRESH).Some?
    ensures var final := Sync(r, SMALL, FRESH).value;
            && Lookup(final, ["CODEX.md"]) == Some(File("@AGENTS.md\n"))
            && Lookup(final, ["CLAUDE.md"]) == Some(File("@AGENTS.md\n"))
            && Lookup(final, [".claude", "agents", "planner.md"]) == Some(File(r.claude(PLANNER)))
  {
    SmallValid();
    SmallApart();
    SmallReady();
    SmallTargets();
    SyncSucceedsExactly(r, SMALL, FRESH);
    SyncGenerates(r, SMALL, FRESH, RootFile(CODEX));
    SyncGenerates(r, SMALL, FRESH, RootFile(CLAUDE));
    SyncGenerates(r, SMALL, FRESH, AgentFile(CLAUDE, PLANNER));
    assert !Overtaken(SMALL.providers, CLAUDE);
  }
}

/**
 * The rest of what a synchronization leaves, and when it succeeds (syncProviderAdapters in
 * scripts/agentic/sync-provider-adapters.ts).  With the jobs of AdapterOutcome, this says of
 * every path what is there afterwards.
 */
module AdapterResult {
  import opened Wrappers
  import opened FileTree
  import opened AdapterOps
  import opened AdapterRuns
  import opened AdapterPlan
  import opened AdapterRegistry
  import opened AdapterOutcome

  /** The directories that are emptied: both for skills, and those that providers have for agents. */
  ghost predicate Emptied(reg: Registry, d: Path) {
    d == [".claude", "skills"] || d == [".github", "skills"] ||
    exists p :: p in reg.providers && p.aliasDir.Some? && p.aliasDir.value != [""] && d == Normal(p.aliasDir.value)
  }

  ghost predicate InEmptied(reg: Registry, p: Path) {
    exists d :: Emptied(reg, d) && d <= p
  }

  predicate RootAdapter(p: Path) {
    p == ["CODEX.md"] || p == ["CLAUDE.md"] || p == [".github", "copilot-instructions.md"]
  }

  /** A job says what is at the path: its file, or something in its mirror. */
  ghost predicate Generated(reg: Registry, p: Path) {
    exists x :: IsJob(reg, x) && (JobTarget(x) == p || (x.SkillMirror? && JobTarget(x) <= p))
  }

  /** The path is an emptied directory, or above one or above what a job generates. */
  ghost predicate OnTheWay(reg: Registry, p: Path) {
    (exists d :: Emptied(reg, d) && p <= d) || (exists x :: IsJob(reg, x) && p < JobTarget(x))
  }

  // --- The steps, seen from a path --------------------------------------------------------

  /** Every step has this effect or none; then so has the run, and has it if one step does. */
  lemma {:induction false} OneEffect(ops: seq<Op>, t: Tree, p: Path, v: Effect)
    requires forall op :: op in ops ==> EffectOf(op, t, p) == None || EffectOf(op, t, p) == v
    ensures Outcome(ops, t, p) == None || Outcome(ops, t, p) == v
    ensures (exists op :: op in ops && EffectOf(op, t, p) == v) ==> Outcome(ops, t, p) == v
  {
    if ops != [] {
      var front, last := ops[..|ops| - 1], ops[|ops| - 1];
      assert ops == front + [last];
      OneEffect(front, t, p, v);
    }
  }

  /** What a step of the plan is for. */
  ghost predicate Purpose(reg: Registry, op: Op) {
    match op
    case Clean(dir) => Emptied(reg, dir) && KnownDir(dir)
    case Remove(file) => RootAdapter(file)
    case Mirror(source, target, github) =>
      exists s, m :: IsJob(reg, SkillMirror(s, m)) && op == MirrorOp(s, m)[0] && target == JobTarget(SkillMirror(s, m))
    case ReadPrompt(prompt) => exists c :: c in reg.customs && prompt == Normal(c.prompt)
    case Throw => exists p :: p in reg.providers && p.name != "gemini" && p.root == Some([""])
    case _ => exists x :: IsJob(reg, x) && !x.SkillMirror? && Target(op) == Some(JobTarget(x)) && Writes(op, x)
  }

  predicate Writes(op: Op, x: Job) {
    match x
    case RootFile(_) => op.Adapter?
    case AgentFile(_, _) => op.Emit?
    case SkillMirror(_, _) => op.Mirror?
    case CustomMirror(c, _) => op.Prompt? && op.prompt == Normal(c.prompt)
  }

  lemma RootPurpose(reg: Registry, p: Provider)
    requires Valid(reg) && p in reg.providers
    ensures forall op :: op in RootOp(p) ==> Purpose(reg, op) && (op.Adapter? || op.Throw?)
    ensures RootOp(p) == [Throw] <==> p.name != "gemini" && p.root == Some([""])
  {
    assert ValidProvider(p);
    if p.name != "gemini" {
      if p.root == Some([""]) {
        EmptyNames();
      } else {
        DefaultAdapterPlace(p.name);
        if p.root.None? {
          PlaceApart([Upper(p.name) + ".md"]);
          DefaultNotUp(p);
        }
        RootStep(p);
        assert IsJob(reg, RootFile(p));
      }
    }
  }

  lemma DefaultNotUp(p: Provider)
    ensures Upper(p.name) + ".md" != ".."
  {
    var file := Upper(p.name) + ".md";
    assert file[|file| - 1] == 'd' && ".."[1] == '.';
  }

  lemma AliasPurpose(r: Renderers, reg: Registry, p: Provider)
    requires Valid(reg) && Ordinary(reg) && p in reg.providers
    ensures forall op :: op in AliasOp(r, reg, p) ==> Purpose(reg, op) && (op.Clean? || op.Emit?)
  {
    assert ValidProvider(p);
    if Given(p.aliasDir) {
      var dir := Normal(p.aliasDir.value);
      forall a, op | a in reg.agents && op in AgentOp(r, p, dir, a) ensures Purpose(reg, op) && op.Emit? {
        AgentStep(r, reg, p, a);
        assert IsJob(reg, AgentFile(p, a));
      }
      FlatMapAll(a => AgentOp(r, p, dir, a), reg.agents, op => Purpose(reg, op) && op.Emit?);
    }
  }

  lemma MirrorPurpose(reg: Registry, s: Skill)
    requires s in reg.skills
    ensures forall op :: op in MirrorOps(s) ==> Purpose(reg, op) && op.Mirror?
  {
    forall m, op | m in s.mirrors && op in MirrorOp(s, m) ensures Purpose(reg, op) && op.Mirror? {
      assert IsJob(reg, SkillMirror(s, m));
    }
    FlatMapAll(m => MirrorOp(s, m), s.mirrors, op => Purpose(reg, op) && op.Mirror?);
  }

  lemma PromptPurpose(r: Renderers, reg: Registry, c: CustomAgent)
    requires c in reg.customs
    ensures forall op :: op in PromptOps(r, c) ==> Purpose(reg, op) && (op.Prompt? || op.ReadPrompt?)
  {
    forall m, op | m in c.mirrors && op in PromptOp(r, c, m) ensures Purpose(reg, op) && op.Prompt? {
      assert IsJob(reg, CustomMirror(c, m));
    }
    FlatMapAll(m => PromptOp(r, c, m), c.mirrors, op => Purpose(reg, op) && op.Prompt?);
  }

  lemma GeneratePurpose(r: Renderers, reg: Registry)
    requires Valid(reg) && Ordinary(reg)
    ensures forall op :: op in RootOps(reg.providers) ==> Purpose(reg, op) && (op.Adapter? || op.Throw?)
    ensures forall op :: op in AliasOps(r, reg) ==> Purpose(reg, op) && (op.Clean? || op.Emit?)
    ensures forall op :: op in SkillOps(reg.skills) ==> Purpose(reg, op) && op.Mirror?
    ensures forall op :: op in CustomOps(r, reg.customs) ==> Purpose(reg, op) && (op.Prompt? || op.ReadPrompt?)
  {
    forall p, op | p in reg.providers && op in RootOp(p) ensures Purpose(reg, op) && (op.Adapter? || op.Throw?) {
      RootPurpose(reg, p);
    }
    FlatMapAll(RootOp, reg.providers, op => Purpose(reg, op) && (op.Adapter? || op.Throw?));
    forall p, op | p in reg.providers && op in AliasOp(r, reg, p) ensures Purpose(reg, op) && (op.Clean? || op.Emit?) {
      AliasPurpose(r, reg, p);
    }
    FlatMapAll(p => AliasOp(r, reg, p), reg.providers, op => Purpose(reg, op) && (op.Clean? || op.Emit?));
    forall s, op | s in reg.skills && op in MirrorOps(s) ensures Purpose(reg, op) && op.Mirror? {
      MirrorPurpose(reg, s);
    }
    FlatMapAll(MirrorOps, reg.skills, op => Purpose(reg, op) && op.Mirror?);
    forall c, op | c in reg.customs && op in PromptOps(r, c)
      ensures Purpose(reg, op) && (op.Prompt? || op.ReadPrompt?)
    {
      PromptPurpose(r, reg, c);
    }
    FlatMapAll(c => PromptOps(r, c), reg.customs, op => Purpose(reg, op) && (op.Prompt? || op.ReadPrompt?));
  }

  lemma CleanedDirs(reg: Registry)
    requires Valid(reg)
    ensures forall d :: d in CleanDirs(reg) <==> Emptied(reg, d)
    ensures forall d :: Emptied(reg, d) ==> KnownDir(d)
  {
    CleanDirsKnown(reg);
    var raws := DedupeRaws(GivenDirs(reg.providers));
    assert CleanDirs(reg) == [CLAUDE_SKILLS, GITHUB_SKILLS] + Normals(raws);
    forall d | d in Normals(raws) ensures Emptied(reg, d) {
      var i :| 0 <= i < |raws| && Normals(raws)[i] == d;
      assert raws[i] in raws;
      var p :| p in reg.providers && Given(p.aliasDir) && p.aliasDir.value == raws[i];
      assert d == Normal(p.aliasDir.value);
    }
    assert CleanDirs(reg)[0] in CleanDirs(reg) && CleanDirs(reg)[1] in CleanDirs(reg);
    forall d | Emptied(reg, d) ensures d in CleanDirs(reg) {
      if d != CLAUDE_SKILLS && d != GITHUB_SKILLS {
        var p :| p in reg.providers && Given(p.aliasDir) && d == Normal(p.aliasDir.value);
      }
    }
  }

  lemma PlanPurpose(r: Renderers, reg: Registry)
    requires Valid(reg) && Ordinary(reg)
    ensures forall op :: op in Plan(r, reg) ==> Purpose(reg, op)
  {
    GeneratePurpose(r, reg);
    CleanedDirs(reg);
    RemoveOpsApart(reg);
    var dirs := CleanDirs(reg);
    forall op | op in CleanOps(dirs) ensures Purpose(reg, op) {
      var i :| 0 <= i < |dirs| && CleanOps(dirs)[i] == op;
      assert dirs[i] in dirs;
    }
  }

  // --- Where no job generates anything ------------------------------------------------------

  /** No job is at or above an emptied directory, and jobs of agents are directly in one. */
  lemma TargetPlaces(reg: Registry, x: Job)
    requires Valid(reg) && Ordinary(reg) && IsJob(reg, x) && (x.RootFile? ==> x.p.root != Some([""]))
    ensures Place(JobTarget(x))
    ensures forall d :: KnownDir(d) ==> !(JobTarget(x) <= d)
    ensures x.RootFile? ==> forall d :: KnownDir(d) ==> Apart(d, JobTarget(x))
    ensures x.AgentFile? ==> Emptied(reg, Parent(JobTarget(x)))
    ensures x.SkillMirror? ==> exists d :: Emptied(reg, d) && d < JobTarget(x)
    ensures x.RootFile? ==> |JobTarget(x)| == 1 || JobTarget(x) in ROOT_ADAPTERS
    ensures x.CustomMirror? ==> CLAUDE_AGENTS < JobTarget(x) || GITHUB_AGENTS < JobTarget(x)
  {
    match x {
      case RootFile(p) =>
        assert ValidProvider(p);
        forall d | KnownDir(d) ensures Apart(d, JobTarget(x)) {
          RootApartFromDir(p, d);
        }
        RootPlace(p);
      case AgentFile(p, a) =>
        assert ValidProvider(p) && KnownDir(Normal(p.aliasDir.value));
        assert Parent(JobTarget(x)) == Normal(p.aliasDir.value);
      case SkillMirror(s, m) =>
        assert ValidSkill(reg, s);
        assert Emptied(reg, CLAUDE_SKILLS) && Emptied(reg, GITHUB_SKILLS);
      case CustomMirror(c, m) => assert ValidCustom(reg, c);
    }
  }

  lemma RootPlace(p: Provider)
    requires ValidProvider(p) && p.root != Some([""])
    ensures Place(JobTarget(RootFile(p)))
    ensures |JobTarget(RootFile(p))| == 1 || JobTarget(RootFile(p)) in ROOT_ADAPTERS
  {
    if p.root.Some? {
      AllowedRootPlace(p.root.value);
    } else {
      DefaultRoot(p.name);
      DefaultAdapterPlace(p.name);
    }
  }

  /** No provider has the empty path as its root adapter, which nothing resolves. */
  predicate RootsGiven(reg: Registry) {
    forall p :: p in reg.providers && p.name != "gemini" ==> p.root != Some([""])
  }

  lemma SyncRootsGiven(r: Renderers, reg: Registry, t: Tree)
    requires Ordinary(reg) && Sync(r, reg, t).Some?
    ensures RootsGiven(reg)
  {
    ThrowsNowhere(r, reg, t);
    RootOpsOfJobs(reg);
    forall p | p in reg.providers && p.name != "gemini" ensures p.root != Some([""]) {
      RootPurpose(reg, p);
    }
  }

  /** A step's effect at a path above or at an emptied directory, or above a job. */
  lemma WayEffect(reg: Registry, op: Op, t: Tree, p: Path)
    requires Valid(reg) && Ordinary(reg) && RootsGiven(reg) && JobsApart(reg)
    requires Purpose(reg, op) && OnTheWay(reg, p)
    ensures EffectOf(op, t, p) == None || EffectOf(op, t, p) == Some(Some(Dir)) || (op.Clean? && op.dir < p)
  {
    match op {
      case Clean(_) =>
      case Remove(file) => RemovedOffTheWay(reg, file);
      case ReadPrompt(_) =>
      case Throw =>
      case _ =>
        var y := PurposeJob(reg, op);
        NotAboveTheWay(reg, y, p);
    }
  }

  /** The job that a writing step is for. */
  lemma PurposeJob(reg: Registry, op: Op) returns (y: Job)
    requires Purpose(reg, op) && Target(op).Some? && !op.Clean?
    ensures IsJob(reg, y) && Target(op) == Some(JobTarget(y)) && Writes(op, y)
  {
    if op.Mirror? {
      var s, m :| IsJob(reg, SkillMirror(s, m)) && op == MirrorOp(s, m)[0] && op.target == JobTarget(SkillMirror(s, m));
      y := SkillMirror(s, m);
    } else {
      y :| IsJob(reg, y) && !y.SkillMirror? && Target(op) == Some(JobTarget(y)) && Writes(op, y);
    }
  }

  lemma NotAboveTheWay(reg: Registry, y: Job, p: Path)
    requires Valid(reg) && Ordinary(reg) && RootsGiven(reg) && JobsApart(reg) && IsJob(reg, y) && OnTheWay(reg, p)
    ensures !(JobTarget(y) <= p)
  {
    TargetPlaces(reg, y);
    CleanedDirs(reg);
    if x :| IsJob(reg, x) && p < JobTarget(x) {
      assert x == y || Apart(JobTarget(x), JobTarget(y));
    }
  }

  lemma RemovedOffTheWay(reg: Registry, file: Path)
    requires Valid(reg) && Ordinary(reg) && RootsGiven(reg) && RootAdapter(file)
    ensures !OnTheWay(reg, file)
    ensures !InEmptied(reg, file)
  {
    Names();
    CleanedDirs(reg);
    forall d | Emptied(reg, d) ensures !(file <= d) && !(d <= file) {
      assert KnownDir(d);
      NoPrefix(d, file, 1);
      NoPrefix(file, d, |file| - 1);
    }
    assert file in ROOT_ADAPTERS;
    forall x | IsJob(reg, x) ensures !(file < JobTarget(x)) {
      TargetPlaces(reg, x);
      PlaceApart(JobTarget(x));
    }
  }

  /** A step that deletes below the way is for an agent directory. */
  lemma WayOutcome(r: Renderers, reg: Registry, ops: seq<Op>, t: Tree, p: Path)
    requires Valid(reg) && Ordinary(reg) && RootsGiven(reg) && JobsApart(reg) && OnTheWay(reg, p)
    requires forall op :: op in ops ==> Purpose(reg, op) && !(op.Clean? && op.dir < p)
    ensures Outcome(ops, t, p) == None || Outcome(ops, t, p) == Some(Some(Dir))
    ensures (exists op :: op in ops && EffectOf(op, t, p) == Some(Some(Dir))) ==> Outcome(ops, t, p) == Some(Some(Dir))
  {
    forall op | op in ops ensures EffectOf(op, t, p) == None || EffectOf(op, t, p) == Some(Some(Dir)) {
      WayEffect(reg, op, t, p);
    }
    OneEffect(ops, t, p, Some(Some(Dir)));
  }

  /** A step that makes the directory. */
  lemma WayMaker(r: Renderers, reg: Registry, t: Tree, p: Path) returns (op: Op)
    requires Valid(reg) && Ordinary(reg) && RootsGiven(reg) && OnTheWay(reg, p)
    ensures op in Plan(r, reg) && EffectOf(op, t, p) == Some(Some(Dir))
  {
    if d :| Emptied(reg, d) && p <= d {
      CleanInPlan(r, reg, d);
      op := Clean(d);
      assert EffectOf(op, t, p) == Some(Some(Dir));
    } else {
      var x :| IsJob(reg, x) && p < JobTarget(x);
      NoAgentWay(reg, x, p);
      JobInPlan(r, reg, x);
      JobMakesWay(r, x, t, p);
      op := JobOp(r, x);
    }
  }

  lemma JobMakesWay(r: Renderers, x: Job, t: Tree, p: Path)
    requires p < JobTarget(x) && !x.AgentFile?
    ensures EffectOf(JobOp(r, x), t, p) == Some(Some(Dir))
  {
  }

  lemma NoAgentWay(reg: Registry, x: Job, p: Path)
    requires Valid(reg) && Ordinary(reg) && RootsGiven(reg) && IsJob(reg, x) && p < JobTarget(x)
    requires forall d :: Emptied(reg, d) ==> !(p <= d)
    ensures !x.AgentFile?
  {
    TargetPlaces(reg, x);
    assert p <= Parent(JobTarget(x));
  }

  lemma WayShort(r: Renderers, reg: Registry, t: Tree, p: Path)
    requires Valid(reg) && Ordinary(reg) && RootsGiven(reg) && JobsApart(reg) && OnTheWay(reg, p) && |p| <= 2
    ensures Outcome(Plan(r, reg), t, p) == Some(Some(Dir))
  {
    PlanPurpose(r, reg);
    forall op | op in Plan(r, reg) ensures !(op.Clean? && op.dir < p) {
      assert Purpose(reg, op);
    }
    WayOutcome(r, reg, Plan(r, reg), t, p);
    var op := WayMaker(r, reg, t, p);
  }

  lemma CleanInPlan(r: Renderers, reg: Registry, d: Path)
    requires Valid(reg) && Emptied(reg, d)
    ensures Clean(d) in CleanOps(CleanDirs(reg)) && Clean(d) in Plan(r, reg)
  {
    CleanedDirs(reg);
    var i :| 0 <= i < |CleanDirs(reg)| && CleanDirs(reg)[i] == d;
    assert CleanOps(CleanDirs(reg))[i] == Clean(d);
  }

  /** The step that does a job. */
  function JobOp(r: Renderers, x: Job): Op {
    match x
    case RootFile(p) => Adapter(JobTarget(x), RootText(p))
    case AgentFile(p, a) => Emit(JobTarget(x), AgentFileText(r, p, a))
    case SkillMirror(s, m) => Mirror(Normal(s.canonical), Normal(m), IsGithubSkill(m))
    case CustomMirror(c, m) => Prompt(Normal(m.1), Normal(c.prompt), r.before(c, m.0), r.after(c, m.0))
  }

  function PhaseOps(r: Renderers, reg: Registry, x: Job): seq<Op> {
    match x
    case RootFile(_) => RootOps(reg.providers)
    case AgentFile(_, _) => AliasOps(r, reg)
    case SkillMirror(_, _) => SkillOps(reg.skills)
    case CustomMirror(_, _) => CustomOps(r, reg.customs)
  }

  lemma JobInPhase(r: Renderers, reg: Registry, x: Job)
    requires Valid(reg) && Ordinary(reg) && RootsGiven(reg) && IsJob(reg, x)
    ensures JobOp(r, x) in PhaseOps(r, reg, x)
  {
    match x {
      case RootFile(p) =>
        assert ValidProvider(p);
        RootPurpose(reg, p);
        RootStep(p);
        InFlatMap(RootOp, reg.providers, p);
        assert JobOp(r, x) in RootOp(p);
      case AgentFile(p, a) =>
        assert ValidProvider(p);
        AgentStep(r, reg, p, a);
        var dir := Normal(p.aliasDir.value);
        assert JobOp(r, x) in AgentOp(r, p, dir, a);
        InFlatMap(b => AgentOp(r, p, dir, b), reg.agents, a);
        InFlatMap(q => AliasOp(r, reg, q), reg.providers, p);
        assert JobOp(r, x) in AliasOp(r, reg, p);
      case SkillMirror(s, m) =>
        assert JobOp(r, x) in MirrorOp(s, m);
        InFlatMap(n => MirrorOp(s, n), s.mirrors, m);
        InFlatMap(MirrorOps, reg.skills, s);
        assert JobOp(r, x) in MirrorOps(s);
      case CustomMirror(c, m) =>
        assert JobOp(r, x) in PromptOp(r, c, m);
        InFlatMap(n => PromptOp(r, c, n), c.mirrors, m);
        InFlatMap(d => PromptOps(r, d), reg.customs, c);
        assert JobOp(r, x) in PromptOps(r, c);
    }
  }

  lemma JobInPlan(r: Renderers, reg: Registry, x: Job)
    requires Valid(reg) && Ordinary(reg) && RootsGiven(reg) && IsJob(reg, x)
    ensures JobOp(r, x) in Plan(r, reg) && Target(JobOp(r, x)) == Some(JobTarget(x))
  {
    JobInPhase(r, reg, x);
    PhaseInPlan(r, reg, x, JobOp(r, x));
  }

  lemma PhaseInPlan(r: Renderers, reg: Registry, x: Job, op: Op)
    requires op in PhaseOps(r, reg, x)
    ensures op in Plan(r, reg)
  {
    assert op in GenerateOps(r, reg);
  }

  /** The steps after the last emptying. */
  function LateOps(r: Renderers, reg: Registry): seq<Op> {
    SkillOps(reg.skills) + CustomOps(r, reg.customs)
  }

  function EarlyOps(r: Renderers, reg: Registry): (early: seq<Op>)
    ensures Plan(r, reg) == early + LateOps(r, reg)
  {
    var clean, root := CleanOps(CleanDirs(reg)) + RemoveOps(reg), RootOps(reg.providers) + AliasOps(r, reg);
    assert GenerateOps(r, reg) == root + LateOps(r, reg);
    clean + root
  }

  lemma LatePurpose(r: Renderers, reg: Registry)
    requires Valid(reg) && Ordinary(reg)
    ensures forall op :: op in LateOps(r, reg) ==> Purpose(reg, op) && !op.Clean?
  {
    GeneratePurpose(r, reg);
  }

  /** Further down, what is on the way is above a mirror or a custom agent. */
  lemma LateJob(reg: Registry, p: Path) returns (x: Job)
    requires Valid(reg) && Ordinary(reg) && RootsGiven(reg) && OnTheWay(reg, p) && |p| > 2
    ensures IsJob(reg, x) && p < JobTarget(x) && (x.SkillMirror? || x.CustomMirror?)
  {
    CleanedDirs(reg);
    x :| IsJob(reg, x) && p < JobTarget(x);
    TargetPlaces(reg, x);
  }

  lemma LateMaker(r: Renderers, reg: Registry, t: Tree, p: Path) returns (op: Op)
    requires Valid(reg) && Ordinary(reg) && RootsGiven(reg) && OnTheWay(reg, p) && |p| > 2
    ensures op in LateOps(r, reg) && EffectOf(op, t, p) == Some(Some(Dir))
  {
    var x := LateJob(reg, p);
    JobInPhase(r, reg, x);
    op := JobOp(r, x);
  }

  lemma WayLong(r: Renderers, reg: Registry, t: Tree, p: Path)
    requires Valid(reg) && Ordinary(reg) && RootsGiven(reg) && JobsApart(reg) && OnTheWay(reg, p) && |p| > 2
    ensures Outcome(Plan(r, reg), t, p) == Some(Some(Dir))
  {
    var early := EarlyOps(r, reg);
    LatePurpose(r, reg);
    WayOutcome(r, reg, LateOps(r, reg), t, p);
    var op := LateMaker(r, reg, t, p);
    OutcomeAppend(early, LateOps(r, reg), t, p);
  }

  lemma FinalFromOutcome(r: Renderers, reg: Registry, t: Tree, p: Path)
    requires Ordinary(reg) && Sync(r, reg, t).Some?
    ensures Lookup(Sync(r, reg, t).value, p) == After(Outcome(Plan(r, reg), t, p), Lookup(t, p))
  {
    PlanPlaces(r, reg);
    RunLookup(Plan(r, reg), t, p);
  }

  /** What a step does to a path where nothing is generated and that is on nothing's way. */
  lemma ElsewhereEffect(reg: Registry, op: Op, t: Tree, p: Path)
    requires Purpose(reg, op) && !Generated(reg, p) && !OnTheWay(reg, p)
    ensures EffectOf(op, t, p) == None || EffectOf(op, t, p) == Some(None)
    ensures !InEmptied(reg, p) && !RootAdapter(p) ==> EffectOf(op, t, p) == None
  {
  }

  lemma ElsewhereOutcome(r: Renderers, reg: Registry, t: Tree, p: Path)
    requires Valid(reg) && Ordinary(reg) && !Generated(reg, p) && !OnTheWay(reg, p)
    ensures Outcome(Plan(r, reg), t, p) == if InEmptied(reg, p) || RootAdapter(p) then Some(None) else None
  {
    PlanPurpose(r, reg);
    forall op | op in Plan(r, reg)
      ensures EffectOf(op, t, p) == None || EffectOf(op, t, p) == Some(None)
      ensures !InEmptied(reg, p) && !RootAdapter(p) ==> EffectOf(op, t, p) == None
    {
      ElsewhereEffect(reg, op, t, p);
    }
    OneEffect(Plan(r, reg), t, p, Some(None));
    if !InEmptied(reg, p) && !RootAdapter(p) {
      OneEffect(Plan(r, reg), t, p, None);
    } else if d :| Emptied(reg, d) && d <= p {
      CleanInPlan(r, reg, d);
      assert !(p <= d) && EffectOf(Clean(d), t, p) == Some(None);
    } else {
      RemovedUnlessClaimed(r, reg, p);
      assert EffectOf(Remove(p), t, p) == Some(None);
    }
  }

  lemma ExpectedIsJob(reg: Registry, p: Path) returns (x: Job)
    requires Valid(reg) && RootAdapter(p) && Expected(reg, p)
    ensures IsJob(reg, x) && x.RootFile? && JobTarget(x) == p
  {
    var q :| q in reg.providers && q.name != "gemini" && AdapterPath(q) == p;
    x := RootFile(q);
    RootAdapterNormal(p);
    assert ValidProvider(q);
    if q.root.None? {
      DefaultRoot(q.name);
    }
  }

  lemma RemovedUnlessClaimed(r: Renderers, reg: Registry, p: Path)
    requires Valid(reg) && RootAdapter(p) && !Generated(reg, p)
    ensures Remove(p) in Plan(r, reg)
  {
    if Expected(reg, p) {
      var x := ExpectedIsJob(reg, p);
    }
    assert p in ROOT_ADAPTERS;
    InFlatMap(adapter => RemoveOp(reg, adapter), ROOT_ADAPTERS, p);
    assert Remove(p) in RemoveOp(reg, p);
  }

  lemma RootAdapterNormal(p: Path)
    requires RootAdapter(p)
    ensures Normal(p) == p
  {
    PlainStays(p, []);
    assert [] + p == p;
  }

  // --- The theorems -----------------------------------------------------------------------

  /**
   * Where no job generates anything, a synchronization makes the directories on the way,
   * leaves nothing else in the emptied directories and no root adapter, and keeps the rest.
   */
  lemma SyncElsewhere(r: Renderers, reg: Registry, t: Tree, p: Path)
    requires Ordinary(reg) && JobsApart(reg) && Sync(r, reg, t).Some? && !Generated(reg, p)
    ensures Lookup(Sync(r, reg, t).value, p)
         == if OnTheWay(reg, p) then Some(Dir)
            else if InEmptied(reg, p) || RootAdapter(p) then None
            else Lookup(t, p)
  {
    SyncRootsGiven(r, reg, t);
    FinalFromOutcome(r, reg, t, p);
    if OnTheWay(reg, p) {
      if |p| <= 2 {
        WayShort(r, reg, t, p);
      } else {
        WayLong(r, reg, t, p);
      }
    } else {
      ElsewhereOutcome(r, reg, t, p);
    }
  }

  /** A root adapter is there afterwards exactly when a provider claims it. */
  lemma RootAdapterClaimed(r: Renderers, reg: Registry, t: Tree, a: Path)
    requires Ordinary(reg) && JobsApart(reg) && Sync(r, reg, t).Some?
    requires a == ["CODEX.md"] || a == ["CLAUDE.md"] || a == [".github", "copilot-instructions.md"]
    ensures a in Sync(r, reg, t).value <==> exists p :: IsJob(reg, RootFile(p)) && JobTarget(RootFile(p)) == a
  {
    SyncRootsGiven(r, reg, t);
    RemovedOffTheWay(reg, a);
    if p :| IsJob(reg, RootFile(p)) && JobTarget(RootFile(p)) == a {
      SyncGenerates(r, reg, t, RootFile(p));
    } else {
      forall x | IsJob(reg, x) ensures JobTarget(x) != a && (x.SkillMirror? ==> !(JobTarget(x) <= a)) {
        OnlyRootsThere(reg, x, a);
      }
      SyncElsewhere(r, reg, t, a);
    }
  }

  lemma OnlyRootsThere(reg: Registry, x: Job, a: Path)
    requires Valid(reg) && Ordinary(reg) && RootsGiven(reg) && IsJob(reg, x) && RootAdapter(a)
    ensures JobTarget(x) == a ==> x.RootFile?
    ensures x.SkillMirror? ==> !(JobTarget(x) <= a)
  {
    TargetPlaces(reg, x);
    RemovedOffTheWay(reg, a);
    if x.SkillMirror? {
      var d :| Emptied(reg, d) && d < JobTarget(x);
      assert JobTarget(x) <= a ==> d <= a;
    }
    if x.AgentFile? {
      assert Parent(JobTarget(x)) <= JobTarget(x);
    }
    if x.CustomMirror? {
      NoPrefix(CLAUDE_AGENTS, a, 1);
      Names();
      NoPrefix(GITHUB_AGENTS, a, 1);
    }
  }
}

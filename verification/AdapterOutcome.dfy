/**
 * What a synchronization leaves, path by path (syncProviderAdapters in
 * scripts/agentic/sync-provider-adapters.ts): every generated file with its text, nothing
 * else in the emptied directories, and everything elsewhere as it was.
 *
 * A job is one thing to generate.  What it is and where it goes is read off the registry.
 */
module AdapterOutcome {
  import opened Wrappers
  import opened Text
  import opened FileTree
  import opened AdapterOps
  import opened AdapterRuns
  import opened AdapterPlan

  datatype Job =
    | RootFile(p: Provider)
    | AgentFile(p: Provider, a: Agent)
    | SkillMirror(s: Skill, mirror: Raw)
    | CustomMirror(c: CustomAgent, custom: (string, Raw))

  predicate IsJob(reg: Registry, x: Job) {
    match x
    case RootFile(p) => p in reg.providers && p.name != "gemini"
    case AgentFile(p, a) =>
      && p in reg.providers && a in reg.agents && p.aliasDir.Some? && p.aliasDir.value != [""]
      && p.name in a.aliases && a.aliases[p.name] != ""
    case SkillMirror(s, mirror) => s in reg.skills && mirror in s.mirrors && mirror != s.canonical
    case CustomMirror(c, custom) => c in reg.customs && custom in c.mirrors
  }

  function DefaultRootFile(name: string): string {
    if name == "codex" then "CODEX.md"
    else if name == "claude" then "CLAUDE.md"
    else if name == "github-copilot" then "GITHUB-COPILOT.md"
    else "GEMINI.md"
  }

  function JobTarget(x: Job): Path {
    match x
    case RootFile(p) => if p.root.Some? then Normal(p.root.value) else [DefaultRootFile(p.name)]
    case AgentFile(p, a) =>
      if p.aliasDir.Some? && p.name in a.aliases then
        Normal(p.aliasDir.value) + [a.aliases[p.name] + if p.suffix.Some? then p.suffix.value else ".md"]
      else []
    case SkillMirror(_, mirror) => Normal(mirror)
    case CustomMirror(_, custom) => Normal(custom.1)
  }

  predicate Apart(a: Path, b: Path) {
    !(a <= b) && !(b <= a)
  }

  /** No two jobs write at, above or below the same place. */
  ghost predicate JobsApart(reg: Registry) {
    forall x, y :: IsJob(reg, x) && IsJob(reg, y) && x != y ==> Apart(JobTarget(x), JobTarget(y))
  }

  /** After the last listing of the provider, another provider has the same agent directory. */
  predicate Overtaken(providers: seq<Provider>, p: Provider)
    requires p.aliasDir.Some?
  {
    exists i :: 0 <= i < |providers| && SharesDir(providers[i], p) &&
                forall j :: i <= j < |providers| ==> providers[j] != p
  }

  predicate SharesDir(q: Provider, p: Provider)
    requires p.aliasDir.Some?
  {
    q != p && q.aliasDir.Some? && q.aliasDir.value != [""] && Normal(q.aliasDir.value) == Normal(p.aliasDir.value)
  }

  /** The job is done: what it generates is in the final tree, from the sources in the first. */
  ghost predicate JobDone(r: Renderers, t: Tree, final: Tree, x: Job) {
    match x
    case RootFile(p) =>
      Lookup(final, JobTarget(x)) == Some(File(
        if p.root.Some? && |p.root.value| > 1 && p.root.value[0] == ".github" then "@../AGENTS.md\n"
        else "@AGENTS.md\n"))
    case AgentFile(p, a) =>
      Lookup(final, JobTarget(x)) == Some(File(if p.name == "github-copilot" then r.copilot(a) else r.claude(a)))
    case SkillMirror(s, mirror) =>
      && Lookup(t, Normal(s.canonical)) != None
      && forall rest: Path :: Mirrored(t, final, s, mirror, rest)
    case CustomMirror(c, custom) =>
      && IsFile(t, Normal(c.prompt))
      && Lookup(final, JobTarget(x))
         == Some(File(r.before(c, custom.0) + Trim(t[Normal(c.prompt)].text) + r.after(c, custom.0)))
  }

  /** A path below a mirror is as below the source; GitHub's mirrors also have their skill file in lower case. */
  predicate Mirrored(t: Tree, final: Tree, s: Skill, mirror: Raw, rest: Path) {
    var source := Normal(s.canonical);
    var inGithub := |mirror| > 2 && mirror[0] == ".github" && mirror[1] == "skills";
    Lookup(final, Normal(mirror) + rest) ==
    if inGithub && rest == ["skill.md"] && IsFile(t, source + ["SKILL.md"]) then Lookup(t, source + ["SKILL.md"])
    else Lookup(t, source + rest)
  }

  // --- Outcomes of lists of steps ---------------------------------------------------------

  lemma {:induction false} OutcomeAppend(a: seq<Op>, b: seq<Op>, t: Tree, p: Path)
    ensures Outcome(a + b, t, p) == if Outcome(b, t, p).Some? then Outcome(b, t, p) else Outcome(a, t, p)
  {
    if b == [] {
      assert a + b == a;
    } else {
      assert (a + b)[..|a + b| - 1] == a + b[..|b| - 1];
      OutcomeAppend(a, b[..|b| - 1], t, p);
    }
  }

  lemma OutcomeOne(op: Op, t: Tree, p: Path)
    ensures Outcome([op], t, p) == EffectOf(op, t, p)
  {
    assert [op][..0] == [];
    assert Outcome([op][..0], t, p) == None;
  }

  /** Each item has the same outcome for the path or none, and one has it. */
  lemma {:induction false} FlatMapOutcome<T>(f: T -> seq<Op>, items: seq<T>, t: Tree, p: Path, v: Effect)
    requires forall x :: x in items ==> Outcome(f(x), t, p) == None || Outcome(f(x), t, p) == v
    ensures Outcome(FlatMap(f, items), t, p) == None || Outcome(FlatMap(f, items), t, p) == v
    ensures (exists x :: x in items && Outcome(f(x), t, p) == v) ==> Outcome(FlatMap(f, items), t, p) == v
  {
    if items != [] {
      var front, last := items[..|items| - 1], items[|items| - 1];
      assert items == front + [last];
      FlatMapOutcome(f, front, t, p, v);
      OutcomeAppend(FlatMap(f, front), f(last), t, p);
    }
  }

  /** A step that leaves everything at and below the place alone. */
  predicate Quiet(op: Op, place: Path) {
    !op.Remove? && (Target(op).Some? ==> Apart(Target(op).value, place))
  }

  lemma QuietEffect(op: Op, place: Path, t: Tree, p: Path)
    requires Quiet(op, place) && place <= p
    ensures EffectOf(op, t, p) == None
  {
  }

  lemma {:induction false} QuietOutcome(ops: seq<Op>, place: Path, t: Tree, p: Path)
    requires place <= p && forall op :: op in ops ==> Quiet(op, place)
    ensures Outcome(ops, t, p) == None
  {
    if ops != [] {
      QuietEffect(ops[|ops| - 1], place, t, p);
      QuietOutcome(ops[..|ops| - 1], place, t, p);
    }
  }

  // --- Steps and jobs -------------------------------------------------------------------

  function Kind(x: Job): nat {
    match x case RootFile(_) => 0 case AgentFile(_, _) => 1 case SkillMirror(_, _) => 2 case CustomMirror(_, _) => 3
  }

  /** The step writes for a job of the kind, or writes nothing. */
  ghost predicate OfKind(reg: Registry, op: Op, kind: nat) {
    !op.Remove? &&
    (op.Clean? || Target(op).None? ||
     exists x :: IsJob(reg, x) && Kind(x) == kind && Target(op) == Some(JobTarget(x)))
  }

  lemma DefaultRoot(name: string)
    requires name in ALLOWED_PROVIDERS
    ensures Upper(name) + ".md" == DefaultRootFile(name)
  {
  }

  /** The step for a root adapter, when it does not throw. */
  lemma RootStep(p: Provider)
    requires ValidProvider(p) && p.name != "gemini" && RootOp(p) != [Throw]
    ensures RootOp(p) == [Adapter(
              JobTarget(RootFile(p)),
              if p.root.Some? && |p.root.value| > 1 && p.root.value[0] == ".github" then "@../AGENTS.md\n"
              else "@AGENTS.md\n")]
  {
    DefaultRoot(p.name);
    DefaultAdapterPlace(p.name);
    if p.root.Some? && !Given(p.root) {
      EmptyNames();
    }
  }

  lemma AgentStep(r: Renderers, reg: Registry, p: Provider, a: Agent)
    requires ValidProvider(p) && Ordinary(reg) && IsJob(reg, AgentFile(p, a))
    ensures AgentOp(r, p, Normal(p.aliasDir.value), a) == [Emit(
              JobTarget(AgentFile(p, a)),
              if p.name == "github-copilot" then r.copilot(a) else r.claude(a))]
  {
    assert PlainAlias(p, a);
    ResolvePlain(Normal(p.aliasDir.value), FileName(p, a.aliases[p.name]));
  }

  /** No step of a run that succeeds is one that throws. */
  lemma NoThrow(ops: seq<Op>, t: Tree)
    requires AllSeparate(ops) && Run(ops, t).Some?
    ensures Throw !in ops
  {
    if Throw in ops {
      var i :| 0 <= i < |ops| && ops[i] == Throw;
      Stepped(ops, i, t);
    }
  }

  /** Every step of a run that succeeds could be taken, with the same `.agents`. */
  lemma StepTaken(ops: seq<Op>, op: Op, t: Tree) returns (u: Tree)
    requires AllSeparate(ops) && Run(ops, t).Some? && op in ops
    ensures SameAgents(t, u) && Succeeds(op, u)
  {
    var i :| 0 <= i < |ops| && ops[i] == op;
    Stepped(ops, i, t);
    u := Run(ops[..i], t).value;
    RunKeepsAgents(ops[..i], t);
    StepEffect(op, u, []);
  }

  lemma RootOpsOfJobs(reg: Registry)
    requires Valid(reg) && Throw !in RootOps(reg.providers)
    ensures forall op :: op in RootOps(reg.providers) ==> OfKind(reg, op, 0) && !op.Clean?
    ensures forall p :: p in reg.providers ==> RootOp(p) != [Throw]
  {
    forall p | p in reg.providers ensures RootOp(p) != [Throw] {
      InFlatMap(RootOp, reg.providers, p);
      assert Throw in [Throw];
    }
    forall p, op | p in reg.providers && op in RootOp(p) ensures OfKind(reg, op, 0) && !op.Clean? {
      assert ValidProvider(p);
      RootStep(p);
      assert IsJob(reg, RootFile(p)) && Kind(RootFile(p)) == 0;
    }
    FlatMapAll(RootOp, reg.providers, op => OfKind(reg, op, 0) && !op.Clean?);
  }

  lemma {:induction false} InFlatMap<T>(f: T -> seq<Op>, items: seq<T>, x: T)
    requires x in items
    ensures forall op :: op in f(x) ==> op in FlatMap(f, items)
  {
    var front, last := items[..|items| - 1], items[|items| - 1];
    assert items == front + [last];
    if x in front {
      InFlatMap(f, front, x);
    }
  }

  lemma AliasOpOfJobs(r: Renderers, reg: Registry, p: Provider)
    requires Valid(reg) && Ordinary(reg) && p in reg.providers
    ensures forall op :: op in AliasOp(r, reg, p) ==>
              OfKind(reg, op, 1) && (op.Clean? ==> Given(p.aliasDir) && op.dir == Normal(p.aliasDir.value))
  {
    assert ValidProvider(p);
    if Given(p.aliasDir) {
      var dir := Normal(p.aliasDir.value);
      forall a, op | a in reg.agents && op in AgentOp(r, p, dir, a) ensures OfKind(reg, op, 1) && !op.Clean? {
        AgentStep(r, reg, p, a);
        assert IsJob(reg, AgentFile(p, a)) && Kind(AgentFile(p, a)) == 1;
      }
      FlatMapAll(a => AgentOp(r, p, dir, a), reg.agents, op => OfKind(reg, op, 1) && !op.Clean?);
    }
  }

  lemma MirrorOpsOfJobs(reg: Registry, s: Skill)
    requires s in reg.skills
    ensures forall op :: op in MirrorOps(s) ==> OfKind(reg, op, 2) && !op.Clean?
  {
    forall mirror, op | mirror in s.mirrors && op in MirrorOp(s, mirror) ensures OfKind(reg, op, 2) && !op.Clean? {
      assert IsJob(reg, SkillMirror(s, mirror)) && Kind(SkillMirror(s, mirror)) == 2;
    }
    FlatMapAll(mirror => MirrorOp(s, mirror), s.mirrors, op => OfKind(reg, op, 2) && !op.Clean?);
  }

  lemma SkillOpsOfJobs(reg: Registry)
    ensures forall op :: op in SkillOps(reg.skills) ==> OfKind(reg, op, 2) && !op.Clean?
  {
    forall s, op | s in reg.skills && op in MirrorOps(s) ensures OfKind(reg, op, 2) && !op.Clean? {
      MirrorOpsOfJobs(reg, s);
    }
    FlatMapAll(MirrorOps, reg.skills, op => OfKind(reg, op, 2) && !op.Clean?);
  }

  lemma PromptOpsOfJobs(r: Renderers, reg: Registry, c: CustomAgent)
    requires c in reg.customs
    ensures forall op :: op in PromptOps(r, c) ==> OfKind(reg, op, 3) && !op.Clean?
  {
    forall custom, op | custom in c.mirrors && op in PromptOp(r, c, custom) ensures OfKind(reg, op, 3) && !op.Clean? {
      assert IsJob(reg, CustomMirror(c, custom)) && Kind(CustomMirror(c, custom)) == 3;
    }
    FlatMapAll(custom => PromptOp(r, c, custom), c.mirrors, op => OfKind(reg, op, 3) && !op.Clean?);
  }

  lemma CustomOpsOfJobs(r: Renderers, reg: Registry)
    ensures forall op :: op in CustomOps(r, reg.customs) ==> OfKind(reg, op, 3) && !op.Clean?
  {
    forall c, op | c in reg.customs && op in PromptOps(r, c) ensures OfKind(reg, op, 3) && !op.Clean? {
      PromptOpsOfJobs(r, reg, c);
    }
    FlatMapAll(c => PromptOps(r, c), reg.customs, op => OfKind(reg, op, 3) && !op.Clean?);
  }

  /** Steps for jobs of another kind leave the job's place alone. */
  lemma OtherKindQuiet(reg: Registry, ops: seq<Op>, kind: nat, x: Job, t: Tree, p: Path)
    requires JobsApart(reg) && IsJob(reg, x) && Kind(x) != kind && JobTarget(x) <= p
    requires forall op :: op in ops ==> OfKind(reg, op, kind) && !op.Clean?
    ensures Outcome(ops, t, p) == None
  {
    forall op | op in ops ensures Quiet(op, JobTarget(x)) {
    }
    QuietOutcome(ops, JobTarget(x), t, p);
  }

  // --- The four kinds of jobs --------------------------------------------------------------

  lemma GenerateOutcome(r: Renderers, reg: Registry, t: Tree, p: Path)
    ensures var a, b, c, d := Outcome(RootOps(reg.providers), t, p), Outcome(AliasOps(r, reg), t, p),
                              Outcome(SkillOps(reg.skills), t, p), Outcome(CustomOps(r, reg.customs), t, p);
            Outcome(GenerateOps(r, reg), t, p)
            == if d.Some? then d else if c.Some? then c else if b.Some? then b else a
  {
    var a, b, c, d := RootOps(reg.providers), AliasOps(r, reg), SkillOps(reg.skills), CustomOps(r, reg.customs);
    OutcomeAppend(a + b + c, d, t, p);
    OutcomeAppend(a + b, c, t, p);
    OutcomeAppend(a, b, t, p);
  }

  /** What the generating steps make of a path is in the final tree. */
  lemma GeneratedIsFinal(r: Renderers, reg: Registry, t: Tree, p: Path)
    requires Ordinary(reg) && Sync(r, reg, t).Some? && Outcome(GenerateOps(r, reg), t, p).Some?
    ensures Lookup(Sync(r, reg, t).value, p) == Outcome(GenerateOps(r, reg), t, p).value
  {
    PlanPlaces(r, reg);
    RunLookup(Plan(r, reg), t, p);
    OutcomeAppend(CleanOps(CleanDirs(reg)) + RemoveOps(reg), GenerateOps(r, reg), t, p);
  }

  /** The places of the providers' agent directories are apart from all root adapters. */
  lemma RootApartFromDir(p: Provider, dir: Path)
    requires ValidProvider(p) && KnownDir(dir) && (p.root.Some? ==> Given(p.root))
    ensures Apart(dir, JobTarget(RootFile(p)))
  {
    var target := JobTarget(RootFile(p));
    Names();
    if p.root.Some? {
      AllowedRootPlace(p.root.value);
      NoPrefix(dir, target, 1);
      if |target| == 1 {
        NoPrefix(target, dir, 0);
      } else {
        NoPrefix(target, dir, 1);
      }
    } else {
      DefaultRoot(p.name);
      var file := DefaultRootFile(p.name);
      assert file[|file| - 1] == 'd';
      assert ".claude"[6] == 'e' && ".github"[6] == 'b';
      NoPrefix(target, dir, 0);
    }
  }

  lemma AliasOpsDirs(r: Renderers, reg: Registry)
    requires Valid(reg) && Ordinary(reg)
    ensures forall op :: op in AliasOps(r, reg) ==> OfKind(reg, op, 1) && (op.Clean? ==> KnownDir(op.dir))
  {
    forall p, op | p in reg.providers && op in AliasOp(r, reg, p)
      ensures OfKind(reg, op, 1) && (op.Clean? ==> KnownDir(op.dir))
    {
      AliasOpOfJobs(r, reg, p);
      assert ValidProvider(p);
    }
    FlatMapAll(p => AliasOp(r, reg, p), reg.providers, op => OfKind(reg, op, 1) && (op.Clean? ==> KnownDir(op.dir)));
  }

  /** The text of a root adapter: an import of AGENTS.md from where it stands. */
  function RootText(p: Provider): string {
    if p.root.Some? && |p.root.value| > 1 && p.root.value[0] == ".github" then "@../AGENTS.md\n" else "@AGENTS.md\n"
  }

  lemma RootPhase(reg: Registry, t: Tree, p: Provider)
    requires Valid(reg) && JobsApart(reg) && IsJob(reg, RootFile(p)) && Throw !in RootOps(reg.providers)
    ensures Outcome(RootOps(reg.providers), t, JobTarget(RootFile(p))) == Some(Some(File(RootText(p))))
  {
    var x, v := RootFile(p), Some(Some(File(RootText(p))));
    RootOpsOfJobs(reg);
    assert ValidProvider(p);
    RootStep(p);
    OutcomeOne(RootOp(p)[0], t, JobTarget(x));
    assert Outcome(RootOp(p), t, JobTarget(x)) == v;
    forall q | q in reg.providers && q != p ensures Outcome(RootOp(q), t, JobTarget(x)) == None {
      assert ValidProvider(q);
      RootBeside(reg, x, q, t);
    }
    FlatMapOutcome(RootOp, reg.providers, t, JobTarget(x), v);
  }

  lemma RootLater(r: Renderers, reg: Registry, t: Tree, p: Provider)
    requires Valid(reg) && Ordinary(reg) && JobsApart(reg) && IsJob(reg, RootFile(p)) && RootOp(p) != [Throw]
    ensures Outcome(AliasOps(r, reg), t, JobTarget(RootFile(p))) == None
    ensures Outcome(SkillOps(reg.skills), t, JobTarget(RootFile(p))) == None
    ensures Outcome(CustomOps(r, reg.customs), t, JobTarget(RootFile(p))) == None
  {
    var x, target := RootFile(p), JobTarget(RootFile(p));
    assert ValidProvider(p);
    AliasOpsDirs(r, reg);
    RootGiven(p);
    forall op | op in AliasOps(r, reg) ensures Quiet(op, target) {
      if op.Clean? {
        RootApartFromDir(p, op.dir);
      }
    }
    QuietOutcome(AliasOps(r, reg), target, t, target);
    SkillOpsOfJobs(reg);
    OtherKindQuiet(reg, SkillOps(reg.skills), 2, x, t, target);
    CustomOpsOfJobs(r, reg);
    OtherKindQuiet(reg, CustomOps(r, reg.customs), 3, x, t, target);
  }

  lemma RootDone(r: Renderers, reg: Registry, t: Tree, p: Provider)
    requires Ordinary(reg) && JobsApart(reg) && Sync(r, reg, t).Some? && IsJob(reg, RootFile(p))
    ensures JobDone(r, t, Sync(r, reg, t).value, RootFile(p))
  {
    ThrowsNowhere(r, reg, t);
    RootOpsOfJobs(reg);
    RootPhase(reg, t, p);
    RootLater(r, reg, t, p);
    GenerateOutcome(r, reg, t, JobTarget(RootFile(p)));
    GeneratedIsFinal(r, reg, t, JobTarget(RootFile(p)));
  }

  lemma RootGiven(p: Provider)
    requires p.name != "gemini" && RootOp(p) != [Throw]
    ensures p.root.Some? ==> Given(p.root)
  {
    EmptyNames();
  }

  lemma RootBeside(reg: Registry, x: Job, q: Provider, t: Tree)
    requires JobsApart(reg) && IsJob(reg, x) && x.RootFile? && q in reg.providers && ValidProvider(q)
    requires RootOp(q) != [Throw] && x != RootFile(q)
    ensures Outcome(RootOp(q), t, JobTarget(x)) == None
  {
    if q.name != "gemini" {
      RootStep(q);
      assert IsJob(reg, RootFile(q));
    }
    QuietOutcome(RootOp(q), JobTarget(x), t, JobTarget(x));
  }

  lemma ThrowsNowhere(r: Renderers, reg: Registry, t: Tree)
    requires Ordinary(reg) && Sync(r, reg, t).Some?
    ensures Throw !in RootOps(reg.providers)
  {
    PlanPlaces(r, reg);
    NoThrow(Plan(r, reg), t);
  }

  // agent files

  lemma AgentBeside(r: Renderers, reg: Registry, p: Provider, a: Agent, q: Provider, t: Tree)
    requires Valid(reg) && Ordinary(reg) && JobsApart(reg) && IsJob(reg, AgentFile(p, a))
    requires q in reg.providers && q != p
    ensures Outcome(AliasOp(r, reg, q), t, JobTarget(AgentFile(p, a))) == if SharesDir(q, p) then Some(None) else None
  {
    var target := JobTarget(AgentFile(p, a));
    if Given(q.aliasDir) {
      assert ValidProvider(p) && ValidProvider(q);
      var dir, own := Normal(q.aliasDir.value), Normal(p.aliasDir.value);
      forall op | op in AgentOps(r, q, dir, reg.agents) ensures Quiet(op, target) {
        AgentEmits(r, reg, q, op);
      }
      QuietOutcome(AgentOps(r, q, dir, reg.agents), target, t, target);
      OutcomeAppend([Clean(dir)], AgentOps(r, q, dir, reg.agents), t, target);
      OutcomeOne(Clean(dir), t, target);
      assert KnownDir(dir) && KnownDir(own) && target[..2] == own;
    }
  }

  /** What a provider's step writes is an agent file of that provider. */
  lemma AgentEmits(r: Renderers, reg: Registry, q: Provider, op: Op)
    requires Valid(reg) && Ordinary(reg) && q in reg.providers && Given(q.aliasDir)
    requires op in AgentOps(r, q, Normal(q.aliasDir.value), reg.agents)
    ensures EmitsFor(reg, q, op)
  {
    assert ValidProvider(q);
    var dir := Normal(q.aliasDir.value);
    forall a, o | a in reg.agents && o in AgentOp(r, q, dir, a) ensures EmitsFor(reg, q, o) {
      AgentStep(r, reg, q, a);
    }
    FlatMapAll(a => AgentOp(r, q, dir, a), reg.agents, o => EmitsFor(reg, q, o));
  }

  ghost predicate EmitsFor(reg: Registry, q: Provider, op: Op) {
    op.Emit? && exists a :: IsJob(reg, AgentFile(q, a)) && Target(op) == Some(JobTarget(AgentFile(q, a)))
  }

  function AgentFileText(r: Renderers, p: Provider, a: Agent): string {
    if p.name == "github-copilot" then r.copilot(a) else r.claude(a)
  }

  lemma AgentOwn(r: Renderers, reg: Registry, p: Provider, a: Agent, t: Tree)
    requires Valid(reg) && Ordinary(reg) && JobsApart(reg) && IsJob(reg, AgentFile(p, a))
    ensures Outcome(AliasOp(r, reg, p), t, JobTarget(AgentFile(p, a))) == Some(Some(File(AgentFileText(r, p, a))))
  {
    var x, v := AgentFile(p, a), Some(Some(File(AgentFileText(r, p, a))));
    var dir := Normal(p.aliasDir.value);
    assert ValidProvider(p);
    AgentStep(r, reg, p, a);
    OutcomeOne(AgentOp(r, p, dir, a)[0], t, JobTarget(x));
    assert Outcome(AgentOp(r, p, dir, a), t, JobTarget(x)) == v;
    forall b | b in reg.agents && b != a ensures Outcome(AgentOp(r, p, dir, b), t, JobTarget(x)) == None {
      AgentOther(r, reg, x, p, b, t);
    }
    FlatMapOutcome(b => AgentOp(r, p, dir, b), reg.agents, t, JobTarget(x), v);
    OutcomeAppend([Clean(dir)], AgentOps(r, p, dir, reg.agents), t, JobTarget(x));
  }

  lemma AgentOther(r: Renderers, reg: Registry, x: Job, p: Provider, b: Agent, t: Tree)
    requires Valid(reg) && Ordinary(reg) && JobsApart(reg) && IsJob(reg, x) && x != AgentFile(p, b)
    requires p in reg.providers && ValidProvider(p) && Given(p.aliasDir) && b in reg.agents
    ensures Outcome(AgentOp(r, p, Normal(p.aliasDir.value), b), t, JobTarget(x)) == None
  {
    var ops := AgentOp(r, p, Normal(p.aliasDir.value), b);
    if IsJob(reg, AgentFile(p, b)) {
      AgentStep(r, reg, p, b);
    }
    QuietOutcome(ops, JobTarget(x), t, JobTarget(x));
  }

  /** The agent file after the steps of some providers. */
  lemma {:induction false} AgentPhase(
    r: Renderers, reg: Registry, ps: seq<Provider>, f: Provider -> seq<Op>, p: Provider, a: Agent, t: Tree)
    requires Valid(reg) && Ordinary(reg) && JobsApart(reg) && IsJob(reg, AgentFile(p, a))
    requires forall q :: q in ps ==> q in reg.providers && f(q) == AliasOp(r, reg, q)
    ensures Outcome(FlatMap(f, ps), t, JobTarget(AgentFile(p, a)))
         == if Overtaken(ps, p) then Some(None)
            else if p in ps then Some(Some(File(AgentFileText(r, p, a))))
            else None
  {
    if ps != [] {
      var front, last := ps[..|ps| - 1], ps[|ps| - 1];
      assert ps == front + [last];
      AgentPhase(r, reg, front, f, p, a, t);
      OutcomeAppend(FlatMap(f, front), f(last), t, JobTarget(AgentFile(p, a)));
      AgentTurn(r, reg, last, p, a, t);
      OvertakenNext(front, last, p);
    }
  }

  lemma AgentTurn(r: Renderers, reg: Registry, q: Provider, p: Provider, a: Agent, t: Tree)
    requires Valid(reg) && Ordinary(reg) && JobsApart(reg) && IsJob(reg, AgentFile(p, a)) && q in reg.providers
    ensures Outcome(AliasOp(r, reg, q), t, JobTarget(AgentFile(p, a)))
         == if q == p then Some(Some(File(AgentFileText(r, p, a)))) else if SharesDir(q, p) then Some(None) else None
  {
    if q == p {
      AgentOwn(r, reg, p, a, t);
    } else {
      AgentBeside(r, reg, p, a, q, t);
    }
  }

  lemma OvertakenNext(front: seq<Provider>, last: Provider, p: Provider)
    requires p.aliasDir.Some?
    ensures Overtaken(front + [last], p) <==> last != p && (SharesDir(last, p) || Overtaken(front, p))
  {
    var ps := front + [last];
    if Overtaken(front, p) && last != p {
      var i :| 0 <= i < |front| && SharesDir(front[i], p) && forall j :: i <= j < |front| ==> front[j] != p;
      assert SharesDir(ps[i], p);
    }
    if SharesDir(last, p) {
      assert ps[|front|] == last;
    }
    if Overtaken(ps, p) {
      var i :| 0 <= i < |ps| && SharesDir(ps[i], p) && forall j :: i <= j < |ps| ==> ps[j] != p;
      assert ps[|front|] == last;
      assert forall j :: i <= j < |front| ==> front[j] == ps[j];
    }
  }

  /** An agent file is there in the end unless its directory is emptied once more for another provider. */
  lemma AgentDone(r: Renderers, reg: Registry, t: Tree, p: Provider, a: Agent)
    requires Ordinary(reg) && JobsApart(reg) && Sync(r, reg, t).Some? && IsJob(reg, AgentFile(p, a))
    ensures !Overtaken(reg.providers, p) ==> JobDone(r, t, Sync(r, reg, t).value, AgentFile(p, a))
    ensures Overtaken(reg.providers, p) ==> JobTarget(AgentFile(p, a)) !in Sync(r, reg, t).value
  {
    var x := AgentFile(p, a);
    AgentPhase(r, reg, reg.providers, q => AliasOp(r, reg, q), p, a, t);
    SkillOpsOfJobs(reg);
    OtherKindQuiet(reg, SkillOps(reg.skills), 2, x, t, JobTarget(x));
    CustomOpsOfJobs(r, reg);
    OtherKindQuiet(reg, CustomOps(r, reg.customs), 3, x, t, JobTarget(x));
    GenerateOutcome(r, reg, t, JobTarget(x));
    GeneratedIsFinal(r, reg, t, JobTarget(x));
  }

  // skill mirrors

  lemma MirrorStep(s: Skill, mirror: Raw)
    requires mirror != s.canonical
    ensures MirrorOp(s, mirror) == [Mirror(
              Normal(s.canonical), Normal(mirror),
              |mirror| > 2 && mirror[0] == ".github" && mirror[1] == "skills")]
  {
  }

  lemma SkillBeside(reg: Registry, x: Job, s: Skill, mirror: Raw, t: Tree, p: Path)
    requires JobsApart(reg) && IsJob(reg, x) && JobTarget(x) <= p && s in reg.skills && mirror in s.mirrors
    requires x != SkillMirror(s, mirror)
    ensures Outcome(MirrorOp(s, mirror), t, p) == None
  {
    if mirror != s.canonical {
      assert IsJob(reg, SkillMirror(s, mirror));
    }
    QuietOutcome(MirrorOp(s, mirror), JobTarget(x), t, p);
  }

  function MirroredEntry(t: Tree, s: Skill, mirror: Raw, rest: Path): Option<Entry> {
    CopiedEntry(t, Normal(s.canonical), Normal(mirror),
                |mirror| > 2 && mirror[0] == ".github" && mirror[1] == "skills", Normal(mirror) + rest)
  }

  lemma SkillPhase(reg: Registry, s: Skill, mirror: Raw, t: Tree, rest: Path)
    requires JobsApart(reg) && IsJob(reg, SkillMirror(s, mirror))
    ensures Outcome(SkillOps(reg.skills), t, Normal(mirror) + rest) == Some(MirroredEntry(t, s, mirror, rest))
  {
    var x, p := SkillMirror(s, mirror), Normal(mirror) + rest;
    var v := Some(MirroredEntry(t, s, mirror, rest));
    MirrorStep(s, mirror);
    OutcomeOne(MirrorOp(s, mirror)[0], t, p);
    assert Outcome(MirrorOp(s, mirror), t, p) == v;
    forall u | u in reg.skills ensures Outcome(MirrorOps(u), t, p) == None || Outcome(MirrorOps(u), t, p) == v
             ensures u == s ==> Outcome(MirrorOps(u), t, p) == v
    {
      forall m | m in u.mirrors && !(u == s && m == mirror) ensures Outcome(MirrorOp(u, m), t, p) == None {
        SkillBeside(reg, x, u, m, t, p);
      }
      FlatMapOutcome(m => MirrorOp(u, m), u.mirrors, t, p, v);
    }
    FlatMapOutcome(MirrorOps, reg.skills, t, p, v);
  }

  lemma SkillPath(r: Renderers, reg: Registry, t: Tree, s: Skill, mirror: Raw, rest: Path)
    requires Ordinary(reg) && JobsApart(reg) && Sync(r, reg, t).Some? && IsJob(reg, SkillMirror(s, mirror))
    ensures Lookup(Sync(r, reg, t).value, Normal(mirror) + rest) == MirroredEntry(t, s, mirror, rest)
  {
    var x, p := SkillMirror(s, mirror), Normal(mirror) + rest;
    SkillPhase(reg, s, mirror, t, rest);
    CustomOpsOfJobs(r, reg);
    OtherKindQuiet(reg, CustomOps(r, reg.customs), 3, x, t, p);
    GenerateOutcome(r, reg, t, p);
    GeneratedIsFinal(r, reg, t, p);
  }

  lemma MirroredEntryMeans(t: Tree, s: Skill, mirror: Raw, rest: Path)
    ensures MirroredEntry(t, s, mirror, rest) ==
            if |mirror| > 2 && mirror[0] == ".github" && mirror[1] == "skills" && rest == ["skill.md"]
               && IsFile(t, Normal(s.canonical) + ["SKILL.md"])
            then Lookup(t, Normal(s.canonical) + ["SKILL.md"]) else Lookup(t, Normal(s.canonical) + rest)
  {
    var target := Normal(mirror);
    assert (target + rest)[|target|..] == rest;
    assert target + rest == target + ["skill.md"] <==> rest == ["skill.md"] by {
      assert (target + ["skill.md"])[|target|..] == ["skill.md"];
    }
  }

  lemma StepInPlan(r: Renderers, reg: Registry, op: Op)
    requires op in SkillOps(reg.skills) || op in CustomOps(r, reg.customs)
    ensures op in Plan(r, reg)
  {
  }

  lemma SkillSourceThere(r: Renderers, reg: Registry, t: Tree, s: Skill, mirror: Raw)
    requires Ordinary(reg) && Sync(r, reg, t).Some? && IsJob(reg, SkillMirror(s, mirror))
    ensures Lookup(t, Normal(s.canonical)) != None
  {
    MirrorStep(s, mirror);
    var op := MirrorOp(s, mirror)[0];
    InFlatMap(m => MirrorOp(s, m), s.mirrors, mirror);
    InFlatMap(MirrorOps, reg.skills, s);
    assert op in MirrorOps(s);
    StepInPlan(r, reg, op);
    PlanPlaces(r, reg);
    var u := StepTaken(Plan(r, reg), op, t);
    assert Separate(op);
    assert Lookup(t, op.source) == Lookup(u, op.source);
  }

  lemma SkillDone(r: Renderers, reg: Registry, t: Tree, s: Skill, mirror: Raw)
    requires Ordinary(reg) && JobsApart(reg) && Sync(r, reg, t).Some? && IsJob(reg, SkillMirror(s, mirror))
    ensures JobDone(r, t, Sync(r, reg, t).value, SkillMirror(s, mirror))
  {
    SkillSourceThere(r, reg, t, s, mirror);
    forall rest: Path ensures Mirrored(t, Sync(r, reg, t).value, s, mirror, rest) {
      SkillPath(r, reg, t, s, mirror, rest);
      MirroredEntryMeans(t, s, mirror, rest);
    }
  }

  // custom agents

  lemma CustomBeside(r: Renderers, reg: Registry, x: Job, c: CustomAgent, custom: (string, Raw), t: Tree)
    requires JobsApart(reg) && IsJob(reg, x) && c in reg.customs && custom in c.mirrors && x != CustomMirror(c, custom)
    ensures Outcome(PromptOp(r, c, custom), t, JobTarget(x)) == None
  {
    assert IsJob(reg, CustomMirror(c, custom));
    QuietOutcome(PromptOp(r, c, custom), JobTarget(x), t, JobTarget(x));
  }

  function CustomText(r: Renderers, t: Tree, c: CustomAgent, custom: (string, Raw)): string
    requires IsFile(t, Normal(c.prompt))
  {
    r.before(c, custom.0) + Trim(t[Normal(c.prompt)].text) + r.after(c, custom.0)
  }

  lemma PromptOpsOutcome(r: Renderers, reg: Registry, x: Job, c: CustomAgent, t: Tree, v: Effect)
    requires JobsApart(reg) && IsJob(reg, x) && x.CustomMirror? && c in reg.customs
    requires Outcome(PromptOp(r, x.c, x.custom), t, JobTarget(x)) == v && v.Some?
    ensures Outcome(PromptOps(r, c), t, JobTarget(x)) == None || Outcome(PromptOps(r, c), t, JobTarget(x)) == v
    ensures c == x.c ==> Outcome(PromptOps(r, c), t, JobTarget(x)) == v
  {
    forall m | m in c.mirrors && !(c == x.c && m == x.custom)
      ensures Outcome(PromptOp(r, c, m), t, JobTarget(x)) == None
    {
      CustomBeside(r, reg, x, c, m, t);
    }
    FlatMapOutcome(m => PromptOp(r, c, m), c.mirrors, t, JobTarget(x), v);
    OutcomeAppend([ReadPrompt(Normal(c.prompt))], FlatMap(m => PromptOp(r, c, m), c.mirrors), t, JobTarget(x));
    OutcomeOne(ReadPrompt(Normal(c.prompt)), t, JobTarget(x));
  }

  lemma CustomPhase(r: Renderers, reg: Registry, c: CustomAgent, custom: (string, Raw), t: Tree)
    requires JobsApart(reg) && IsJob(reg, CustomMirror(c, custom)) && IsFile(t, Normal(c.prompt))
    ensures Outcome(CustomOps(r, reg.customs), t, Normal(custom.1)) == Some(Some(File(CustomText(r, t, c, custom))))
  {
    var x, target, v := CustomMirror(c, custom), Normal(custom.1), Some(Some(File(CustomText(r, t, c, custom))));
    OutcomeOne(PromptOp(r, c, custom)[0], t, target);
    assert PromptOp(r, c, custom) == [PromptOp(r, c, custom)[0]];
    assert Outcome(PromptOp(r, c, custom), t, target) == v;
    forall d | d in reg.customs
      ensures Outcome(PromptOps(r, d), t, target) == None || Outcome(PromptOps(r, d), t, target) == v
      ensures d == c ==> Outcome(PromptOps(r, d), t, target) == v
    {
      PromptOpsOutcome(r, reg, x, d, t, v);
    }
    FlatMapOutcome(d => PromptOps(r, d), reg.customs, t, target, v);
  }

  lemma PromptThere(r: Renderers, reg: Registry, t: Tree, c: CustomAgent)
    requires Ordinary(reg) && Sync(r, reg, t).Some? && c in reg.customs
    ensures IsFile(t, Normal(c.prompt))
  {
    var op := ReadPrompt(Normal(c.prompt));
    assert PromptOps(r, c)[0] == op;
    InFlatMap(d => PromptOps(r, d), reg.customs, c);
    StepInPlan(r, reg, op);
    PlanPlaces(r, reg);
    var u := StepTaken(Plan(r, reg), op, t);
    assert Separate(op);
    assert Lookup(t, op.prompt) == Lookup(u, op.prompt);
  }

  lemma CustomDone(r: Renderers, reg: Registry, t: Tree, c: CustomAgent, custom: (string, Raw))
    requires Ordinary(reg) && JobsApart(reg) && Sync(r, reg, t).Some? && IsJob(reg, CustomMirror(c, custom))
    ensures JobDone(r, t, Sync(r, reg, t).value, CustomMirror(c, custom))
  {
    PromptThere(r, reg, t, c);
    CustomPhase(r, reg, c, custom, t);
    GenerateOutcome(r, reg, t, Normal(custom.1));
    GeneratedIsFinal(r, reg, t, Normal(custom.1));
  }

  // --- The theorems -----------------------------------------------------------------------

  /**
   * A synchronization that succeeds has done every job, except for the agent files whose
   * directory it has emptied once more for a later provider: those are gone.
   */
  lemma SyncGenerates(r: Renderers, reg: Registry, t: Tree, x: Job)
    requires Ordinary(reg) && JobsApart(reg) && Sync(r, reg, t).Some? && IsJob(reg, x)
    ensures !(x.AgentFile? && Overtaken(reg.providers, x.p)) ==> JobDone(r, t, Sync(r, reg, t).value, x)
    ensures x.AgentFile? && Overtaken(reg.providers, x.p) ==> JobTarget(x) !in Sync(r, reg, t).value
  {
    match x {
      case RootFile(p) => RootDone(r, reg, t, p);
      case AgentFile(p, a) => AgentDone(r, reg, t, p, a);
      case SkillMirror(s, mirror) => SkillDone(r, reg, t, s, mirror);
      case CustomMirror(c, custom) => CustomDone(r, reg, t, c, custom);
    }
  }
}

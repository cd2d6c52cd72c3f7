/**
 * The registry of providers, agents and skills, its validation, and the steps that
 * syncProviderAdapters takes for it (scripts/agentic/sync-provider-adapters.ts).
 *
 * A configured path is the list of its parts between slashes, so "./a//b/" is
 * [".", "a", "", "b", ""].
 */
module AdapterPlan {
  import opened Wrappers
  import opened FileTree
  import opened AdapterOps
  import opened AdapterRuns

  // --- Configured paths -----------------------------------------------------------------

  type Raw = seq<string>

  function NormalFrom(raw: Raw, acc: Path): Path {
    if raw == [] then acc
    else if raw[0] == "" || raw[0] == "." then NormalFrom(raw[1..], acc)
    else if raw[0] == ".." && acc != [] && acc[|acc| - 1] != ".." then NormalFrom(raw[1..], acc[..|acc| - 1])
    else NormalFrom(raw[1..], acc + [raw[0]])
  }

  /** path.posix.normalize, without a trailing slash */
  function Normal(raw: Raw): Path {
    NormalFrom(raw, [])
  }

  predicate Relative(raw: Raw) {
    !(|raw| > 1 && raw[0] == "")
  }

  predicate TrailingSlash(raw: Raw) {
    |raw| > 1 && raw[|raw| - 1] == ""
  }

  /** resolveRepoPath: the path below the repository root, unless it is absolute, the root, or outside. */
  function Resolve(raw: Raw): Option<Path> {
    var p := Normal(raw);
    if !Relative(raw) || p == [] || p[0] == ".." then None else Some(p)
  }

  const CLAUDE_SKILLS: Path := [".claude", "skills"]
  const GITHUB_SKILLS: Path := [".github", "skills"]
  const CLAUDE_AGENTS: Path := [".claude", "agents"]
  const GITHUB_AGENTS: Path := [".github", "agents"]
  const AGENT_SKILLS: Path := [".agents", "skills"]

  const ROOT_ADAPTERS: seq<Path> := [["CODEX.md"], ["CLAUDE.md"], [".github", "copilot-instructions.md"]]
  const ALLOWED_PROVIDERS := ["codex", "claude", "gemini", "github-copilot"]

  // assertGeneratedTarget, by kind

  predicate AllowedRoot(raw: Raw) {
    Relative(raw) && !TrailingSlash(raw) && Normal(raw) in ROOT_ADAPTERS
  }

  predicate AllowedAliasDir(raw: Raw) {
    Relative(raw) && !TrailingSlash(raw) && (Normal(raw) == CLAUDE_AGENTS || Normal(raw) == GITHUB_AGENTS)
  }

  predicate AllowedSkillSource(raw: Raw) {
    Relative(raw) && AGENT_SKILLS < Normal(raw)
  }

  predicate AllowedSkillMirror(raw: Raw) {
    Relative(raw) && (CLAUDE_SKILLS < Normal(raw) || GITHUB_SKILLS < Normal(raw))
  }

  predicate AllowedAgentMirror(raw: Raw) {
    Relative(raw) && (CLAUDE_AGENTS < Normal(raw) || GITHUB_AGENTS < Normal(raw))
  }

  // --- The registry -----------------------------------------------------------------------

  datatype Provider = Provider(name: string, root: Option<Raw>, aliasDir: Option<Raw>, suffix: Option<string>)

  datatype Agent = Agent(name: string, aliases: map<string, string>)

  datatype Skill = Skill(name: string, providers: set<string>, canonical: Raw, mirrors: seq<Raw>)

  datatype CustomAgent = CustomAgent(
    name: string, tools: seq<string>, requiredSkills: seq<string>, prompt: Raw, mirrors: seq<(string, Raw)>)

  datatype Registry = Registry(
    providers: seq<Provider>, agents: seq<Agent>, skills: seq<Skill>, customs: seq<CustomAgent>)

  /** The texts of generated files; custom agents put text around their trimmed prompt. */
  datatype Renderers = Renderers(
    claude: Agent -> string,
    copilot: Agent -> string,
    before: (CustomAgent, string) -> string,
    after: (CustomAgent, string) -> string)

  predicate Given(raw: Option<Raw>) {
    raw.Some? && raw.value != [""]
  }

  predicate HasProvider(reg: Registry, name: string) {
    exists p :: p in reg.providers && p.name == name
  }

  predicate HasSkill(reg: Registry, name: string) {
    exists s :: s in reg.skills && s.name == name
  }

  predicate ValidProvider(p: Provider) {
    && p.name in ALLOWED_PROVIDERS
    && (Given(p.root) ==> AllowedRoot(p.root.value) && Resolve(p.root.value).Some?)
    && (Given(p.aliasDir) ==> AllowedAliasDir(p.aliasDir.value) && Resolve(p.aliasDir.value).Some?)
  }

  predicate ValidSkill(reg: Registry, s: Skill) {
    && (forall name :: name in s.providers ==> HasProvider(reg, name))
    && AllowedSkillSource(s.canonical) && Resolve(s.canonical).Some?
    && (forall m :: m in s.mirrors ==> (m != s.canonical ==> AllowedSkillMirror(m)) && Resolve(m).Some?)
  }

  predicate ValidCustom(reg: Registry, c: CustomAgent) {
    && (forall tool :: tool in c.tools ==> tool in ["read", "search", "edit"])
    && (forall name :: name in c.requiredSkills ==> HasSkill(reg, name))
    && (forall m :: m in c.mirrors ==> HasProvider(reg, m.0))
    && Resolve(c.prompt).Some?
    && (forall m :: m in c.mirrors ==> AllowedAgentMirror(m.1) && Resolve(m.1).Some?)
  }

  predicate Distinct(names: seq<string>) {
    forall i, j :: 0 <= i < j < |names| ==> names[i] != names[j]
  }

  function SkillNames(skills: seq<Skill>): seq<string> {
    seq(|skills|, i requires 0 <= i < |skills| => skills[i].name)
  }

  function AgentNames(agents: seq<Agent>): seq<string> {
    seq(|agents|, i requires 0 <= i < |agents| => agents[i].name)
  }

  function CustomNames(customs: seq<CustomAgent>): seq<string> {
    seq(|customs|, i requires 0 <= i < |customs| => customs[i].name)
  }

  /** Every check that is made before anything is deleted. */
  predicate Valid(reg: Registry) {
    && Distinct(SkillNames(reg.skills))
    && Distinct(AgentNames(reg.agents))
    && Distinct(CustomNames(reg.customs))
    && (forall p :: p in reg.providers ==> ValidProvider(p))
    && (forall a :: a in reg.agents ==> forall name :: name in a.aliases ==> HasProvider(reg, name))
    && (forall s :: s in reg.skills ==> ValidSkill(reg, s))
    && (forall c :: c in reg.customs ==> ValidCustom(reg, c))
  }

  // --- The steps --------------------------------------------------------------------------

  /** The steps for one item after the other. */
  function FlatMap<T>(f: T -> seq<Op>, items: seq<T>): seq<Op> {
    if items == [] then [] else FlatMap(f, items[..|items| - 1]) + f(items[|items| - 1])
  }

  lemma {:induction false} FlatMapPrefix<T>(f: T -> seq<Op>, items: seq<T>, n: nat)
    requires n <= |items|
    ensures FlatMap(f, items[..n]) <= FlatMap(f, items)
  {
    if n < |items| {
      var front := items[..|items| - 1];
      assert front[..n] == items[..n];
      FlatMapPrefix(f, front, n);
    } else {
      assert items[..n] == items;
    }
  }

  lemma {:induction false} FlatMapAll<T(!new)>(f: T -> seq<Op>, items: seq<T>, good: Op -> bool)
    requires forall x, op :: x in items && op in f(x) ==> good(op)
    ensures forall op :: op in FlatMap(f, items) ==> good(op)
  {
    if items != [] {
      assert items == items[..|items| - 1] + [items[|items| - 1]];
      FlatMapAll(f, items[..|items| - 1], good);
    }
  }

  function DedupeRaws(raws: seq<Raw>): (r: seq<Raw>)
    ensures forall x :: x in r <==> x in raws
  {
    if raws == [] then []
    else
      var front := DedupeRaws(raws[..|raws| - 1]);
      assert raws == raws[..|raws| - 1] + [raws[|raws| - 1]];
      if raws[|raws| - 1] in front then front else front + [raws[|raws| - 1]]
  }

  function GivenDirs(providers: seq<Provider>): (r: seq<Raw>)
    ensures forall x :: x in r ==> exists p :: p in providers && Given(p.aliasDir) && p.aliasDir.value == x
  {
    if providers == [] then []
    else
      var last := providers[|providers| - 1];
      GivenDirs(providers[..|providers| - 1]) + if Given(last.aliasDir) then [last.aliasDir.value] else []
  }

  function Normals(raws: seq<Raw>): (r: seq<Path>)
    ensures |r| == |raws| && forall i :: 0 <= i < |raws| ==> r[i] == Normal(raws[i])
  {
    seq(|raws|, i requires 0 <= i < |raws| => Normal(raws[i]))
  }

  /** The directories emptied first. */
  function CleanDirs(reg: Registry): seq<Path> {
    [CLAUDE_SKILLS, GITHUB_SKILLS] + Normals(DedupeRaws(GivenDirs(reg.providers)))
  }

  function CleanOps(dirs: seq<Path>): (ops: seq<Op>)
    ensures |ops| == |dirs| && forall i :: 0 <= i < |dirs| ==> ops[i] == Clean(dirs[i])
  {
    seq(|dirs|, i requires 0 <= i < |dirs| => Clean(dirs[i]))
  }

  function UpperChar(c: char): char {
    if 'a' <= c <= 'z' then c - 'a' + 'A' else c
  }

  function Upper(s: string): string {
    seq(|s|, i requires 0 <= i < |s| => UpperChar(s[i]))
  }

  function AdapterPath(p: Provider): Raw {
    if p.root.Some? then p.root.value else [Upper(p.name) + ".md"]
  }

  predicate Expected(reg: Registry, adapter: Path) {
    exists p :: p in reg.providers && p.name != "gemini" && AdapterPath(p) == adapter
  }

  function RemoveOp(reg: Registry, adapter: Path): seq<Op> {
    if Expected(reg, adapter) then [] else [Remove(adapter)]
  }

  /** Root adapters that no provider claims are deleted. */
  function RemoveOps(reg: Registry): seq<Op> {
    FlatMap(adapter => RemoveOp(reg, adapter), ROOT_ADAPTERS)
  }

  function RenderRootAdapter(raw: Raw): string {
    if |raw| > 1 && raw[0] == ".github" then "@../AGENTS.md\n" else "@AGENTS.md\n"
  }

  function RootOp(p: Provider): seq<Op> {
    if p.name == "gemini" then []
    else
      match Resolve(AdapterPath(p))
      case None => [Throw]
      case Some(path) => [Adapter(path, RenderRootAdapter(AdapterPath(p)))]
  }

  function RootOps(providers: seq<Provider>): seq<Op> {
    FlatMap(RootOp, providers)
  }

  function FileName(p: Provider, alias: string): string {
    alias + if p.suffix.Some? then p.suffix.value else ".md"
  }

  /** A file name that is one part of a path. */
  predicate Plain(name: string) {
    name != "" && name != "." && name != ".." && '/' !in name
  }

  /** The parts between slashes, the last of them begun with `part`. */
  function SplitFrom(s: string, part: string): (parts: seq<string>)
    ensures parts != []
  {
    if s == "" then [part]
    else if s[0] == '/' then [part] + SplitFrom(s[1..], "")
    else SplitFrom(s[1..], part + [s[0]])
  }

  function Split(s: string): seq<string> {
    SplitFrom(s, "")
  }

  /** The agent file for one provider; its directory is not made. */
  function AgentOp(r: Renderers, p: Provider, dir: Path, a: Agent): seq<Op> {
    if p.name !in a.aliases || a.aliases[p.name] == "" then []
    else
      match Resolve(dir + Split(FileName(p, a.aliases[p.name])))
      case None => [Throw]
      case Some(target) => [Emit(target, AgentText(r, p, a))]
  }

  function AgentText(r: Renderers, p: Provider, a: Agent): string {
    if p.name == "github-copilot" then r.copilot(a) else r.claude(a)
  }

  function AgentOps(r: Renderers, p: Provider, dir: Path, agents: seq<Agent>): seq<Op> {
    FlatMap(a => AgentOp(r, p, dir, a), agents)
  }

  /** A provider's agent directory is emptied and filled. */
  function AliasOp(r: Renderers, reg: Registry, p: Provider): seq<Op> {
    if !Given(p.aliasDir) then []
    else [Clean(Normal(p.aliasDir.value))] + AgentOps(r, p, Normal(p.aliasDir.value), reg.agents)
  }

  function AliasOps(r: Renderers, reg: Registry): seq<Op> {
    FlatMap(p => AliasOp(r, reg, p), reg.providers)
  }

  predicate IsGithubSkill(raw: Raw) {
    |raw| > 2 && raw[..2] == GITHUB_SKILLS
  }

  function MirrorOp(s: Skill, mirror: Raw): seq<Op> {
    if mirror == s.canonical then [] else [Mirror(Normal(s.canonical), Normal(mirror), IsGithubSkill(mirror))]
  }

  function MirrorOps(s: Skill): seq<Op> {
    FlatMap(mirror => MirrorOp(s, mirror), s.mirrors)
  }

  function SkillOps(skills: seq<Skill>): seq<Op> {
    FlatMap(MirrorOps, skills)
  }

  function PromptOp(r: Renderers, c: CustomAgent, mirror: (string, Raw)): seq<Op> {
    [Prompt(Normal(mirror.1), Normal(c.prompt), r.before(c, mirror.0), r.after(c, mirror.0))]
  }

  function PromptOps(r: Renderers, c: CustomAgent): seq<Op> {
    [ReadPrompt(Normal(c.prompt))] + FlatMap(mirror => PromptOp(r, c, mirror), c.mirrors)
  }

  function CustomOps(r: Renderers, customs: seq<CustomAgent>): seq<Op> {
    FlatMap(c => PromptOps(r, c), customs)
  }

  function GenerateOps(r: Renderers, reg: Registry): seq<Op> {
    RootOps(reg.providers) + AliasOps(r, reg) + SkillOps(reg.skills) + CustomOps(r, reg.customs)
  }

  function Plan(r: Renderers, reg: Registry): seq<Op> {
    CleanOps(CleanDirs(reg)) + RemoveOps(reg) + GenerateOps(r, reg)
  }

  /** syncProviderAdapters; None: it throws. */
  function Sync(r: Renderers, reg: Registry, t: Tree): Option<Tree> {
    if Valid(reg) then Run(Plan(r, reg), t) else None
  }

  /** The registry reads prompts under `.agents` and names agent files plainly. */
  predicate Ordinary(reg: Registry) {
    && (forall c :: c in reg.customs ==> AGENTS <= Normal(c.prompt))
    && (forall p, a :: p in reg.providers && a in reg.agents ==> PlainAlias(p, a))
  }

  predicate PlainAlias(p: Provider, a: Agent) {
    p.name in a.aliases && a.aliases[p.name] != "" ==> Plain(FileName(p, a.aliases[p.name]))
  }

  // --- The plan is tidy --------------------------------------------------------------------

  /** A place that generated files may have. */
  predicate Place(p: Path) {
    || (|p| == 1 && p != AGENTS)
    || p in ROOT_ADAPTERS
    || CLAUDE_SKILLS <= p || GITHUB_SKILLS <= p || CLAUDE_AGENTS <= p || GITHUB_AGENTS <= p
  }

  /** The names that tell the places apart. */
  lemma Names()
    ensures ".claude" != ".agents" && ".github" != ".agents" && ".claude" != ".github"
    ensures "CODEX.md" != ".agents" && "CLAUDE.md" != ".agents"
    ensures "CODEX.md" != ".claude" && "CODEX.md" != ".github"
    ensures "CLAUDE.md" != ".claude" && "CLAUDE.md" != ".github"
    ensures "copilot-instructions.md" != "skills" && "copilot-instructions.md" != "agents"
  {
    assert ".claude"[1] == 'c' && ".github"[1] == 'g' && ".agents"[1] == 'a';
  }

  lemma PlaceApart(p: Path)
    requires Place(p)
    ensures p != [] && !(AGENTS <= p)
    ensures forall q :: q in ROOT_ADAPTERS ==> !(q < p)
  {
    Names();
    PlaceParts(p);
    NoPrefix(AGENTS, p, 0);
    forall q | q in ROOT_ADAPTERS ensures !(q < p) {
      if |q| < |p| {
        NoPrefix(q, p, |q| - 1);
      }
    }
  }

  lemma NoPrefix(q: Path, p: Path, i: nat)
    requires i < |q| && (i < |p| ==> p[i] != q[i])
    ensures !(q <= p)
  {
  }

  lemma PlaceParts(p: Path)
    requires Place(p)
    ensures p != []
    ensures |p| == 1 ==> p != AGENTS
    ensures |p| == 2 ==>
              (p[0] == ".claude" || p[0] == ".github")
    ensures |p| > 2 ==> (p[0] == ".claude" || p[0] == ".github") && (p[1] == "skills" || p[1] == "agents")
  {
    Names();
  }

  /** A generating step of the plan. */
  ghost predicate Good(cleans: seq<Path>, op: Op) {
    && Separate(op) && Generates(cleans, op)
    && (Target(op).Some? ==> Place(Target(op).value))
  }

  ghost predicate AllGood(cleans: seq<Path>, ops: seq<Op>) {
    forall op :: op in ops ==> Good(cleans, op)
  }

  lemma AllGoodAppend(cleans: seq<Path>, a: seq<Op>, b: seq<Op>)
    requires AllGood(cleans, a) && AllGood(cleans, b)
    ensures AllGood(cleans, a + b)
  {
  }

  lemma AllowedRootPlace(raw: Raw)
    requires AllowedRoot(raw)
    ensures Place(Normal(raw))
  {
  }

  lemma DefaultAdapterPlace(name: string)
    ensures Normal([Upper(name) + ".md"]) == [Upper(name) + ".md"] && Place([Upper(name) + ".md"])
  {
    var file := Upper(name) + ".md";
    assert file[|file| - 1] == 'd';
    assert ".."[1] == '.' && "."[0] == '.' && ".agents"[6] == 's';
    assert file != "" && file != "." && file != ".." && file != ".agents";
    var raw: Raw := [file];
    assert raw[1..] == [] && [] + [file] == [file];
    assert NormalFrom(raw, []) == NormalFrom(raw[1..], [file]) == [file];
  }

  lemma EmptyNames()
    ensures Normal([""]) == []
  {
    var raw: Raw := [""];
    assert raw[1..] == [];
    assert NormalFrom(raw, []) == NormalFrom(raw[1..], []) == [];
  }

  lemma RootOpGood(cleans: seq<Path>, p: Provider)
    requires ValidProvider(p)
    ensures AllGood(cleans, RootOp(p))
  {
    DefaultAdapterPlace(p.name);
    if Given(p.root) {
      AllowedRootPlace(p.root.value);
    } else if p.root.Some? {
      EmptyNames();
    }
    if p.name != "gemini" && Resolve(AdapterPath(p)).Some? {
      PlaceApart(Normal(AdapterPath(p)));
    }
  }

  lemma RootOpsGood(cleans: seq<Path>, providers: seq<Provider>)
    requires forall p :: p in providers ==> ValidProvider(p)
    ensures AllGood(cleans, RootOps(providers))
  {
    forall p, op | p in providers && op in RootOp(p) ensures Good(cleans, op) {
      RootOpGood(cleans, p);
    }
    FlatMapAll(RootOp, providers, op => Good(cleans, op));
  }

  lemma {:induction false} SplitPlain(s: string, part: string)
    requires '/' !in s
    ensures SplitFrom(s, part) == [part + s]
  {
    if s == "" {
      assert part + s == part;
    } else {
      SplitPlain(s[1..], part + [s[0]]);
      assert part + [s[0]] + s[1..] == part + s;
    }
  }

  /** A plain name in an agent directory is just that. */
  lemma ResolvePlain(dir: Path, name: string)
    requires (dir == CLAUDE_AGENTS || dir == GITHUB_AGENTS) && Plain(name)
    ensures Resolve(dir + Split(name)) == Some(dir + [name])
  {
    SplitPlain(name, "");
    assert "" + name == name;
    NormalNext(dir + [name], []);
    NormalNext([dir[1], name], [dir[0]]);
    NormalNext([name], dir);
    assert (dir + [name])[1..] == [dir[1], name] && [dir[1], name][1..] == [name] && [name][1..] == [];
    assert [] + [dir[0]] == [dir[0]] && [dir[0]] + [dir[1]] == dir;
  }

  lemma NormalNext(raw: Raw, acc: Path)
    requires raw != [] && raw[0] != "" && raw[0] != "." && raw[0] != ".."
    ensures NormalFrom(raw, acc) == NormalFrom(raw[1..], acc + [raw[0]])
  {
  }

  lemma AgentOpGood(cleans: seq<Path>, r: Renderers, p: Provider, dir: Path, a: Agent)
    requires dir in cleans && (dir == CLAUDE_AGENTS || dir == GITHUB_AGENTS) && PlainAlias(p, a)
    ensures AllGood(cleans, AgentOp(r, p, dir, a))
  {
    if p.name in a.aliases && a.aliases[p.name] != "" {
      var name := FileName(p, a.aliases[p.name]);
      ResolvePlain(dir, name);
      PlaceApart(dir + [name]);
      assert Parent(dir + [name]) == dir && InClean(cleans, dir);
    }
  }

  lemma AliasOpGood(cleans: seq<Path>, r: Renderers, reg: Registry, p: Provider)
    requires ValidProvider(p) && (Given(p.aliasDir) ==> Normal(p.aliasDir.value) in cleans)
    requires forall a :: a in reg.agents ==> PlainAlias(p, a)
    ensures AllGood(cleans, AliasOp(r, reg, p))
  {
    if Given(p.aliasDir) {
      var dir := Normal(p.aliasDir.value);
      PlaceApart(dir);
      assert InClean(cleans, dir);
      forall a, op | a in reg.agents && op in AgentOp(r, p, dir, a) ensures Good(cleans, op) {
        AgentOpGood(cleans, r, p, dir, a);
      }
      FlatMapAll(a => AgentOp(r, p, dir, a), reg.agents, op => Good(cleans, op));
      AllGoodAppend(cleans, [Clean(dir)], AgentOps(r, p, dir, reg.agents));
    }
  }

  lemma AliasOpsGood(cleans: seq<Path>, r: Renderers, reg: Registry)
    requires forall p :: p in reg.providers ==> ValidProvider(p)
    requires forall p :: p in reg.providers && Given(p.aliasDir) ==> Normal(p.aliasDir.value) in cleans
    requires Ordinary(reg)
    ensures AllGood(cleans, AliasOps(r, reg))
  {
    forall p, op | p in reg.providers && op in AliasOp(r, reg, p) ensures Good(cleans, op) {
      AliasOpGood(cleans, r, reg, p);
    }
    FlatMapAll(p => AliasOp(r, reg, p), reg.providers, op => Good(cleans, op));
  }

  lemma MirrorOpsGood(cleans: seq<Path>, reg: Registry, s: Skill)
    requires CLAUDE_SKILLS in cleans && GITHUB_SKILLS in cleans && ValidSkill(reg, s)
    ensures AllGood(cleans, MirrorOps(s))
  {
    forall mirror, op | mirror in s.mirrors && op in MirrorOp(s, mirror) ensures Good(cleans, op) {
      PlaceApart(Normal(mirror));
      assert InClean(cleans, Normal(mirror));
      assert AGENTS <= AGENT_SKILLS;
    }
    FlatMapAll(mirror => MirrorOp(s, mirror), s.mirrors, op => Good(cleans, op));
  }

  lemma SkillOpsGood(cleans: seq<Path>, reg: Registry, skills: seq<Skill>)
    requires CLAUDE_SKILLS in cleans && GITHUB_SKILLS in cleans
    requires forall s :: s in skills ==> ValidSkill(reg, s)
    ensures AllGood(cleans, SkillOps(skills))
  {
    forall s, op | s in skills && op in MirrorOps(s) ensures Good(cleans, op) {
      MirrorOpsGood(cleans, reg, s);
    }
    FlatMapAll(MirrorOps, skills, op => Good(cleans, op));
  }

  lemma PromptOpsGood(cleans: seq<Path>, r: Renderers, reg: Registry, c: CustomAgent)
    requires ValidCustom(reg, c) && AGENTS <= Normal(c.prompt)
    ensures AllGood(cleans, PromptOps(r, c))
  {
    forall mirror, op | mirror in c.mirrors && op in PromptOp(r, c, mirror) ensures Good(cleans, op) {
      PlaceApart(Normal(mirror.1));
    }
    FlatMapAll(mirror => PromptOp(r, c, mirror), c.mirrors, op => Good(cleans, op));
  }

  lemma CustomOpsGood(cleans: seq<Path>, r: Renderers, reg: Registry, customs: seq<CustomAgent>)
    requires forall c :: c in customs ==> ValidCustom(reg, c) && AGENTS <= Normal(c.prompt)
    ensures AllGood(cleans, CustomOps(r, customs))
  {
    forall c, op | c in customs && op in PromptOps(r, c) ensures Good(cleans, op) {
      PromptOpsGood(cleans, r, reg, c);
    }
    FlatMapAll(c => PromptOps(r, c), customs, op => Good(cleans, op));
  }

  predicate KnownDir(d: Path) {
    d == CLAUDE_SKILLS || d == GITHUB_SKILLS || d == CLAUDE_AGENTS || d == GITHUB_AGENTS
  }

  lemma CleanDirsKnown(reg: Registry)
    requires Valid(reg)
    ensures forall d :: d in CleanDirs(reg) ==> KnownDir(d)
    ensures CleanDirs(reg)[0] == CLAUDE_SKILLS && CleanDirs(reg)[1] == GITHUB_SKILLS
    ensures forall p :: p in reg.providers && Given(p.aliasDir) ==> Normal(p.aliasDir.value) in CleanDirs(reg)
  {
    var raws := DedupeRaws(GivenDirs(reg.providers));
    var dirs := Normals(raws);
    assert CleanDirs(reg)[2..] == dirs;
    forall d | d in dirs ensures KnownDir(d) {
      var i :| 0 <= i < |dirs| && dirs[i] == d;
      assert raws[i] in raws;
      var p :| p in reg.providers && Given(p.aliasDir) && p.aliasDir.value == raws[i];
      assert ValidProvider(p);
    }
    forall p | p in reg.providers && Given(p.aliasDir) ensures Normal(p.aliasDir.value) in CleanDirs(reg) {
      GivenDirsAll(reg.providers, p);
      var i :| 0 <= i < |raws| && raws[i] == p.aliasDir.value;
      assert dirs[i] in dirs;
    }
  }

  lemma {:induction false} GivenDirsAll(providers: seq<Provider>, p: Provider)
    requires p in providers && Given(p.aliasDir)
    ensures p.aliasDir.value in GivenDirs(providers)
  {
    var front, last := providers[..|providers| - 1], providers[|providers| - 1];
    if p != last {
      GivenDirsAll(front, p);
    }
  }

  lemma GenerateOpsGood(r: Renderers, reg: Registry)
    requires Valid(reg) && Ordinary(reg)
    ensures AllGood(CleanDirs(reg), GenerateOps(r, reg))
  {
    var cleans := CleanDirs(reg);
    CleanDirsKnown(reg);
    assert cleans[0] in cleans && cleans[1] in cleans;
    var a, b, c, d :=
      RootOps(reg.providers), AliasOps(r, reg), SkillOps(reg.skills), CustomOps(r, reg.customs);
    RootOpsGood(cleans, reg.providers);
    AliasOpsGood(cleans, r, reg);
    SkillOpsGood(cleans, reg, reg.skills);
    CustomOpsGood(cleans, r, reg, reg.customs);
    AllGoodAppend(cleans, a, b);
    AllGoodAppend(cleans, a + b, c);
    AllGoodAppend(cleans, a + b + c, d);
  }

  lemma CleanOpsApart(dirs: seq<Path>)
    requires forall d :: d in dirs ==> KnownDir(d)
    ensures forall op :: op in CleanOps(dirs) ==> Separate(op) && (Target(op).Some? ==> Place(Target(op).value))
  {
    forall op | op in CleanOps(dirs) ensures Separate(op) && (Target(op).Some? ==> Place(Target(op).value)) {
      var i :| 0 <= i < |dirs| && CleanOps(dirs)[i] == op;
      assert dirs[i] in dirs && KnownDir(op.dir);
      PlaceApart(op.dir);
    }
  }

  lemma RemoveOpsApart(reg: Registry)
    ensures forall op :: op in RemoveOps(reg) ==>
              op.Remove? && op.file in ROOT_ADAPTERS && Separate(op) && Target(op).None?
  {
    forall adapter, op | adapter in ROOT_ADAPTERS && op in RemoveOp(reg, adapter) ensures Separate(op) {
      PlaceApart(adapter);
    }
    FlatMapAll(adapter => RemoveOp(reg, adapter), ROOT_ADAPTERS,
               (op: Op) => op.Remove? && op.file in ROOT_ADAPTERS && Separate(op));
  }

  /** Everything that the plan writes or makes has its place. */
  lemma PlanPlaces(r: Renderers, reg: Registry)
    requires Valid(reg) && Ordinary(reg)
    ensures AllSeparate(Plan(r, reg))
    ensures forall op :: op in Plan(r, reg) && Target(op).Some? ==> Place(Target(op).value)
  {
    GenerateOpsGood(r, reg);
    CleanDirsKnown(reg);
    CleanOpsApart(CleanDirs(reg));
    RemoveOpsApart(reg);
    assert forall op :: op in GenerateOps(r, reg) ==> Good(CleanDirs(reg), op);
  }

  lemma RootAdapterOutside(cleans: seq<Path>, q: Path)
    requires q in ROOT_ADAPTERS && forall d :: d in cleans ==> KnownDir(d)
    ensures !InClean(cleans, q)
    ensures forall p :: p in Prefixes(q) && p != q ==> p == [] || p == [".github"]
  {
    Names();
    forall d | d in cleans ensures !(d <= q) {
      assert KnownDir(d);
      NoPrefix(d, q, 1);
    }
    forall p | p in Prefixes(q) && p != q ensures p == [] || p == [".github"] {
      assert p == q[..|p|];
    }
  }

  /** The files to remove are apart from everything else. */
  lemma RemovalsApart(cleans: seq<Path>, ops: seq<Op>, q: Path)
    requires q in ROOT_ADAPTERS && forall d :: d in cleans ==> KnownDir(d)
    requires 2 <= |cleans| <= |ops| && ops[1] == Clean(GITHUB_SKILLS)
    requires forall op :: op in ops && Target(op).Some? ==> Place(Target(op).value)
    ensures RemovesApart(cleans, ops, q)
  {
    RootAdapterOutside(cleans, q);
    forall p | p in Prefixes(q) && p != q ensures MaskedBy(ops, |cleans|, p) {
      assert Masks(ops[1], p);
    }
    forall op | op in ops ensures OffTheWay(op, q) {
      if Target(op).Some? {
        PlaceApart(Target(op).value);
      }
    }
  }

  lemma PlanTidy(r: Renderers, reg: Registry)
    requires Valid(reg) && Ordinary(reg)
    ensures Tidy(CleanDirs(reg), |CleanDirs(reg)| + |RemoveOps(reg)|, Plan(r, reg))
  {
    var cleans, removes, rest := CleanDirs(reg), RemoveOps(reg), GenerateOps(r, reg);
    CleanDirsKnown(reg);
    RemoveOpsApart(reg);
    PlanPlaces(r, reg);
    GenerateOpsGood(r, reg);
    TidyParts(cleans, removes, rest, Plan(r, reg));
  }

  lemma TidyParts(cleans: seq<Path>, removes: seq<Op>, rest: seq<Op>, ops: seq<Op>)
    requires ops == CleanOps(cleans) + removes + rest
    requires |cleans| >= 2 && cleans[1] == GITHUB_SKILLS && forall d :: d in cleans ==> KnownDir(d)
    requires forall op :: op in removes ==> op.Remove? && op.file in ROOT_ADAPTERS
    requires AllGood(cleans, rest)
    requires forall op :: op in ops && Target(op).Some? ==> Place(Target(op).value)
    ensures Tidy(cleans, |cleans| + |removes|, ops)
  {
    var n, m := |cleans|, |cleans| + |removes|;
    assert forall i :: 0 <= i < n ==> ops[i] == CleanOps(cleans)[i];
    forall i | n <= i < m ensures ops[i].Remove? && RemovesApart(cleans, ops, ops[i].file) {
      assert ops[i] == removes[i - n] && removes[i - n] in removes;
      RemovalsApart(cleans, ops, ops[i].file);
    }
    forall i | m <= i < |ops| ensures Generates(cleans, ops[i]) {
      assert ops[i] == rest[i - m] && rest[i - m] in rest;
    }
  }
}

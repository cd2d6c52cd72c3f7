/**
 * The generator at work: syncProviderAdapters and checkProviderAdapters as they change
 * a repository step by step (scripts/agentic/sync-provider-adapters.ts), against the
 * functions Sync and Check.
 */
module AdapterWorkspace {
  import opened Wrappers
  import opened Text
  import opened FileTree
  import opened AdapterOps
  import opened AdapterRuns
  import opened AdapterPlan
  import opened AdapterSync

  /**
   * A tree changed by some steps; not ok: one of them has thrown, perhaps half-way.
   * Nothing is said when a step reads outside `.agents` or writes inside.
   */
  ghost predicate Does(ops: seq<Op>, before: Tree, after: Tree, ok: bool) {
    AllSeparate(ops) ==>
      && (if ok then Run(ops, before) == Some(after) else Run(ops, before) == None)
      && SameAgents(before, after)
  }

  lemma DoesNothing(t: Tree)
    ensures Does([], t, t, true)
  {
  }

  lemma RunOne(op: Op, t: Tree)
    ensures Run([op], t) == Apply(op, t)
  {
    assert [op][..0] == [];
    assert Fold(Apply, [op][..0], t) == Some(t);
  }

  lemma DoesStep(op: Op, t: Tree, u: Tree, ok: bool)
    requires if ok then Apply(op, t) == Some(u) else Apply(op, t) == None
    requires Separate(op) && !ok ==> SameAgents(t, u)
    ensures Does([op], t, u, ok)
  {
    RunOne(op, t);
    if AllSeparate([op]) && ok {
      RunKeepsAgents([op], t);
    }
    assert op in [op];
  }

  lemma DoesMore(a: seq<Op>, b: seq<Op>, t: Tree, u: Tree, v: Tree, ok: bool)
    requires Does(a, t, u, true) && Does(b, u, v, ok)
    ensures Does(a + b, t, v, ok)
  {
    if AllSeparate(a + b) {
      assert forall op :: op in a ==> op in a + b;
      assert forall op :: op in b ==> op in a + b;
      RunAppend(a, b, t);
    }
  }

  /** What has thrown stays so, whatever was to come. */
  lemma DoesFail(a: seq<Op>, ops: seq<Op>, t: Tree, u: Tree)
    requires Does(a, t, u, false) && a <= ops
    ensures Does(ops, t, u, false)
  {
    if AllSeparate(ops) {
      assert forall op :: op in a ==> op in ops;
      assert ops == a + ops[|a|..];
      RunAppend(a, ops[|a|..], t);
    }
  }

  lemma FlatMapNext<T>(f: T -> seq<Op>, items: seq<T>, i: nat)
    requires i < |items|
    ensures FlatMap(f, items[..i + 1]) == FlatMap(f, items[..i]) + f(items[i])
  {
    assert items[..i + 1][..i] == items[..i];
  }

  /** The steps for the first items, and all of them, with those for the next item between. */
  lemma FlatMapParts<T>(f: T -> seq<Op>, items: seq<T>, i: nat) returns (front: seq<Op>, next: seq<Op>, all: seq<Op>)
    requires i < |items|
    ensures front == FlatMap(f, items[..i]) && next == FlatMap(f, items[..i + 1]) && all == FlatMap(f, items)
    ensures next == front + f(items[i]) && next <= all
  {
    front, next, all := FlatMap(f, items[..i]), FlatMap(f, items[..i + 1]), FlatMap(f, items);
    FlatMapNext(f, items, i);
    FlatMapPrefix(f, items, i + 1);
  }

  /** One round of a loop over the items. */
  lemma Round<T>(f: T -> seq<Op>, items: seq<T>, i: nat, t: Tree, u: Tree, v: Tree, ok: bool)
    requires i < |items| && Does(FlatMap(f, items[..i]), t, u, true) && Does(f(items[i]), u, v, ok)
    ensures ok ==> Does(FlatMap(f, items[..i + 1]), t, v, true)
    ensures !ok ==> Does(FlatMap(f, items), t, v, false)
  {
    var front, next, all := FlatMapParts(f, items, i);
    DoesMore(front, f(items[i]), t, u, v, ok);
    if !ok {
      DoesFail(next, all, t, v);
    }
  }

  lemma SameAgentsOn(t: Tree, u: Tree, v: Tree)
    requires SameAgents(t, u) && SameAgents(u, v)
    ensures SameAgents(t, v)
  {
  }

  lemma RemovalSpares(t: Tree, p: Path)
    requires p != [] && !(AGENTS <= p)
    ensures SameAgents(t, RemoveAll(t, p))
  {
    forall q | AGENTS <= q ensures Lookup(t, q) == Lookup(RemoveAll(t, p), q) {
      AgentsApart(p, q);
    }
  }

  lemma PreparationSpares(t: Tree, target: Path)
    requires target != [] && !(AGENTS <= target) && MkdirP(t, Parent(target)).Some?
    ensures SameAgents(t, MkdirP(t, Parent(target)).value)
  {
    forall q | AGENTS <= q ensures q !in Prefixes(Parent(target)) {
      assert q <= Parent(target) ==> q <= target;
    }
  }

  lemma CopySpares(t: Tree, source: Path, target: Path)
    requires target != [] && !(AGENTS <= target) && Copy(t, source, target).Some?
    ensures SameAgents(t, Copy(t, source, target).value)
  {
    forall q | AGENTS <= q ensures q !in Targets(t, source, target) {
      AgentsApart(target, q);
    }
  }

  lemma MirrorSeparate(r: Renderers, c: CustomAgent, i: nat)
    requires AllSeparate(PromptOps(r, c)) && i < |c.mirrors|
    ensures AllSeparate(PromptOp(r, c, c.mirrors[i])) && AGENTS <= Normal(c.prompt)
  {
    var f := mirror => PromptOp(r, c, mirror);
    FlatMapNext(f, c.mirrors, i);
    FlatMapPrefix(f, c.mirrors, i + 1);
    assert PromptOps(r, c)[0] == ReadPrompt(Normal(c.prompt)) && PromptOps(r, c)[0] in PromptOps(r, c);
    forall op | op in PromptOp(r, c, c.mirrors[i]) ensures op in PromptOps(r, c) {
      assert op in FlatMap(f, c.mirrors[..i + 1]);
    }
  }

  class Workspace {
    var tree: Tree

    constructor (tree: Tree)
      ensures this.tree == tree
    {
      this.tree := tree;
    }

    method MakeDirectory(dir: Path) returns (ok: bool)
      modifies this
      ensures ok ==> MkdirP(old(tree), dir) == Some(tree)
      ensures !ok ==> MkdirP(old(tree), dir) == None && tree == old(tree)
    {
      match MkdirP(tree, dir)
      case None => ok := false;
      case Some(made) => ok, tree := true, made;
    }

    method Write(file: Path, text: string) returns (ok: bool)
      modifies this
      ensures ok ==> WriteFile(old(tree), file, text) == Some(tree)
      ensures !ok ==> WriteFile(old(tree), file, text) == None && tree == old(tree)
    {
      match WriteFile(tree, file, text)
      case None => ok := false;
      case Some(written) => ok, tree := true, written;
    }

    method EnsureCleanDirectory(dir: Path) returns (ok: bool)
      modifies this
      ensures Does([Clean(dir)], old(tree), tree, ok)
    {
      if dir != [] && !(AGENTS <= dir) {
        RemovalSpares(tree, dir);
      }
      tree := RemoveAll(tree, dir);
      ok := MakeDirectory(dir);
      DoesStep(Clean(dir), old(tree), tree, ok);
    }

    method RemoveStale(file: Path) returns (ok: bool)
      modifies this
      ensures Does([Remove(file)], old(tree), tree, ok)
    {
      match RemoveFile(tree, file) {
        case None => ok := false;
        case Some(removed) => ok, tree := true, removed;
      }
      DoesStep(Remove(file), old(tree), tree, ok);
    }

    /** mkdir -p of the directory, then the file. */
    method RenderFile(target: Path, text: string) returns (ok: bool)
      modifies this
      ensures if ok then Render(old(tree), target, text) == Some(tree) else Render(old(tree), target, text) == None
      ensures !ok && target != [] && !(AGENTS <= target) ==> SameAgents(old(tree), tree)
    {
      ok := MakeDirectory(Parent(target));
      if ok {
        if target != [] && !(AGENTS <= target) {
          PreparationSpares(old(tree), target);
        }
        ok := Write(target, text);
      }
    }

    /** rm -rf of the place, mkdir -p above it, cp -r onto it. */
    method ReplaceWithCopy(source: Path, target: Path) returns (ok: bool)
      modifies this
      ensures if ok then ReplaceByCopy(old(tree), source, target) == Some(tree)
              else ReplaceByCopy(old(tree), source, target) == None
      ensures target != [] && !(AGENTS <= target) ==> SameAgents(old(tree), tree)
    {
      ghost var spared := target != [] && !(AGENTS <= target);
      if spared {
        RemovalSpares(tree, target);
      }
      tree := RemoveAll(tree, target);
      ghost var removed := tree;
      ok := MakeDirectory(Parent(target));
      if ok {
        if spared {
          PreparationSpares(removed, target);
          SameAgentsOn(old(tree), removed, tree);
        }
        match Copy(tree, source, target) {
          case None => ok := false;
          case Some(copied) =>
            if spared {
              CopySpares(tree, source, target);
              SameAgentsOn(old(tree), tree, copied);
            }
            tree := copied;
        }
      }
    }

    /** copySkillDirectory */
    method CopySkillDirectory(source: Path, target: Path, github: bool) returns (ok: bool)
      modifies this
      ensures Does([Mirror(source, target, github)], old(tree), tree, ok)
    {
      ok := ReplaceWithCopy(source, target);
      if ok {
        ok := CopySkillFile(target, github);
      }
      DoesStep(Mirror(source, target, github), old(tree), tree, ok);
    }

    method CopySkillFile(target: Path, github: bool) returns (ok: bool)
      modifies this
      ensures ok ==> AddSkillFile(old(tree), target, github) == Some(tree)
      ensures !ok ==> AddSkillFile(old(tree), target, github) == None && tree == old(tree)
    {
      var legacy := target + ["SKILL.md"];
      if !github || legacy !in tree {
        return true;
      }
      if tree[legacy].Dir? {
        return false;
      }
      ok := Write(target + ["skill.md"], tree[legacy].text);
    }

    method CleanDirectories(dirs: seq<Path>) returns (ok: bool)
      modifies this
      ensures Does(CleanOps(dirs), old(tree), tree, ok)
    {
      DoesNothing(tree);
      for i := 0 to |dirs|
        invariant Does(CleanOps(dirs)[..i], old(tree), tree, true)
      {
        ghost var before := tree;
        ok := EnsureCleanDirectory(dirs[i]);
        DoesMore(CleanOps(dirs)[..i], [Clean(dirs[i])], old(tree), before, tree, ok);
        assert CleanOps(dirs)[..i + 1] == CleanOps(dirs)[..i] + [Clean(dirs[i])];
        if !ok {
          DoesFail(CleanOps(dirs)[..i + 1], CleanOps(dirs), old(tree), tree);
          return;
        }
      }
      assert CleanOps(dirs)[..|dirs|] == CleanOps(dirs);
      ok := true;
    }

    method RemoveStaleAdapters(reg: Registry) returns (ok: bool)
      modifies this
      ensures Does(RemoveOps(reg), old(tree), tree, ok)
    {
      ghost var f := adapter => RemoveOp(reg, adapter);
      DoesNothing(tree);
      for i := 0 to |ROOT_ADAPTERS|
        invariant Does(FlatMap(f, ROOT_ADAPTERS[..i]), old(tree), tree, true)
      {
        ghost var before := tree;
        DoesNothing(tree);
        ok := true;
        if !Expected(reg, ROOT_ADAPTERS[i]) {
          ok := RemoveStale(ROOT_ADAPTERS[i]);
        }
        Round(f, ROOT_ADAPTERS, i, old(tree), before, tree, ok);
        if !ok {
          return;
        }
      }
      assert ROOT_ADAPTERS[..|ROOT_ADAPTERS|] == ROOT_ADAPTERS;
      ok := true;
    }

    method WriteRootAdapter(p: Provider) returns (ok: bool)
      modifies this
      ensures Does(RootOp(p), old(tree), tree, ok)
    {
      DoesNothing(tree);
      if p.name == "gemini" {
        return true;
      }
      var resolved := Resolve(AdapterPath(p));
      if resolved.None? {
        DoesStep(Throw, tree, tree, false);
        return false;
      }
      var rendered := RenderRootAdapter(AdapterPath(p));
      ok := RenderFile(resolved.value, rendered);
      DoesStep(Adapter(resolved.value, rendered), old(tree), tree, ok);
    }

    method WriteRootAdapters(providers: seq<Provider>) returns (ok: bool)
      modifies this
      ensures Does(RootOps(providers), old(tree), tree, ok)
    {
      DoesNothing(tree);
      for i := 0 to |providers|
        invariant Does(FlatMap(RootOp, providers[..i]), old(tree), tree, true)
      {
        ghost var before := tree;
        ok := WriteRootAdapter(providers[i]);
        Round(RootOp, providers, i, old(tree), before, tree, ok);
        if !ok {
          return;
        }
      }
      assert providers[..|providers|] == providers;
      ok := true;
    }

    method WriteAgent(r: Renderers, p: Provider, dir: Path, a: Agent) returns (ok: bool)
      modifies this
      ensures Does(AgentOp(r, p, dir, a), old(tree), tree, ok)
    {
      DoesNothing(tree);
      if p.name !in a.aliases || a.aliases[p.name] == "" {
        return true;
      }
      var resolved := Resolve(dir + Split(FileName(p, a.aliases[p.name])));
      if resolved.None? {
        DoesStep(Throw, tree, tree, false);
        return false;
      }
      var content := AgentText(r, p, a);
      ok := Write(resolved.value, content);
      DoesStep(Emit(resolved.value, content), old(tree), tree, ok);
    }

    method WriteProviderAgents(r: Renderers, reg: Registry, p: Provider) returns (ok: bool)
      modifies this
      ensures Does(AliasOp(r, reg, p), old(tree), tree, ok)
    {
      DoesNothing(tree);
      if !Given(p.aliasDir) {
        return true;
      }
      var dir := Normal(p.aliasDir.value);
      ghost var f := a => AgentOp(r, p, dir, a);
      ok := EnsureCleanDirectory(dir);
      if !ok {
        DoesFail([Clean(dir)], AliasOp(r, reg, p), old(tree), tree);
        return;
      }
      ghost var cleaned := tree;
      DoesNothing(tree);
      for i := 0 to |reg.agents|
        invariant Does(FlatMap(f, reg.agents[..i]), cleaned, tree, true)
      {
        ghost var before := tree;
        ok := WriteAgent(r, p, dir, reg.agents[i]);
        Round(f, reg.agents, i, cleaned, before, tree, ok);
        if !ok {
          DoesMore([Clean(dir)], FlatMap(f, reg.agents), old(tree), cleaned, tree, false);
          return;
        }
      }
      assert reg.agents[..|reg.agents|] == reg.agents;
      DoesMore([Clean(dir)], FlatMap(f, reg.agents), old(tree), cleaned, tree, true);
      ok := true;
    }

    method WriteAgents(r: Renderers, reg: Registry) returns (ok: bool)
      modifies this
      ensures Does(AliasOps(r, reg), old(tree), tree, ok)
    {
      ghost var f := p => AliasOp(r, reg, p);
      DoesNothing(tree);
      for i := 0 to |reg.providers|
        invariant Does(FlatMap(f, reg.providers[..i]), old(tree), tree, true)
      {
        ghost var before := tree;
        ok := WriteProviderAgents(r, reg, reg.providers[i]);
        Round(f, reg.providers, i, old(tree), before, tree, ok);
        if !ok {
          return;
        }
      }
      assert reg.providers[..|reg.providers|] == reg.providers;
      ok := true;
    }

    method CopySkill(s: Skill) returns (ok: bool)
      modifies this
      ensures Does(MirrorOps(s), old(tree), tree, ok)
    {
      ghost var f := mirror => MirrorOp(s, mirror);
      DoesNothing(tree);
      for i := 0 to |s.mirrors|
        invariant Does(FlatMap(f, s.mirrors[..i]), old(tree), tree, true)
      {
        var mirror := s.mirrors[i];
        ghost var before := tree;
        DoesNothing(tree);
        ok := true;
        if mirror != s.canonical {
          ok := CopySkillDirectory(Normal(s.canonical), Normal(mirror), IsGithubSkill(mirror));
        }
        Round(f, s.mirrors, i, old(tree), before, tree, ok);
        if !ok {
          return;
        }
      }
      assert s.mirrors[..|s.mirrors|] == s.mirrors;
      ok := true;
    }

    method CopySkills(skills: seq<Skill>) returns (ok: bool)
      modifies this
      ensures Does(SkillOps(skills), old(tree), tree, ok)
    {
      DoesNothing(tree);
      for i := 0 to |skills|
        invariant Does(FlatMap(MirrorOps, skills[..i]), old(tree), tree, true)
      {
        ghost var before := tree;
        ok := CopySkill(skills[i]);
        Round(MirrorOps, skills, i, old(tree), before, tree, ok);
        if !ok {
          return;
        }
      }
      assert skills[..|skills|] == skills;
      ok := true;
    }

    /** The prompt is read once, then every mirror is written. */
    method WriteCustomAgent(r: Renderers, c: CustomAgent) returns (ok: bool)
      modifies this
      ensures Does(PromptOps(r, c), old(tree), tree, ok)
    {
      var prompt := Normal(c.prompt);
      ghost var f := mirror => PromptOp(r, c, mirror);
      ghost var separate := AllSeparate(PromptOps(r, c));
      ok := IsFile(tree, prompt);
      DoesStep(ReadPrompt(prompt), tree, tree, ok);
      if !ok {
        DoesFail([ReadPrompt(prompt)], PromptOps(r, c), tree, tree);
        return;
      }
      var text := tree[prompt].text;
      DoesNothing(tree);
      for i := 0 to |c.mirrors|
        invariant separate ==> Does(FlatMap(f, c.mirrors[..i]), old(tree), tree, true)
        invariant separate ==> Lookup(tree, prompt) == Some(File(text))
      {
        ghost var before := tree;
        ok := WriteMirror(r, c, c.mirrors[i], text);
        if separate {
          MirrorSeparate(r, c, i);
          assert Does(f(c.mirrors[i]), before, tree, ok);
          Round(f, c.mirrors, i, old(tree), before, tree, ok);
          if !ok {
            DoesMore([ReadPrompt(prompt)], FlatMap(f, c.mirrors), old(tree), old(tree), tree, false);
          }
        }
        if !ok {
          return;
        }
      }
      assert c.mirrors[..|c.mirrors|] == c.mirrors;
      if separate {
        DoesMore([ReadPrompt(prompt)], FlatMap(f, c.mirrors), old(tree), old(tree), tree, true);
      }
      ok := true;
    }

    method WriteMirror(r: Renderers, c: CustomAgent, mirror: (string, Raw), text: string) returns (ok: bool)
      modifies this
      ensures Lookup(old(tree), Normal(c.prompt)) == Some(File(text)) ==>
                Does(PromptOp(r, c, mirror), old(tree), tree, ok)
    {
      ok := RenderFile(Normal(mirror.1), r.before(c, mirror.0) + Trim(text) + r.after(c, mirror.0));
      if Lookup(old(tree), Normal(c.prompt)) == Some(File(text)) {
        DoesStep(PromptOp(r, c, mirror)[0], old(tree), tree, ok);
      }
    }

    method WriteCustomAgents(r: Renderers, customs: seq<CustomAgent>) returns (ok: bool)
      modifies this
      ensures Does(CustomOps(r, customs), old(tree), tree, ok)
    {
      ghost var f := c => PromptOps(r, c);
      DoesNothing(tree);
      for i := 0 to |customs|
        invariant Does(FlatMap(f, customs[..i]), old(tree), tree, true)
      {
        ghost var before := tree;
        ok := WriteCustomAgent(r, customs[i]);
        Round(f, customs, i, old(tree), before, tree, ok);
        if !ok {
          return;
        }
      }
      assert customs[..|customs|] == customs;
      ok := true;
    }

    /** Everything that is generated, in order, until something throws. */
    method Generate(r: Renderers, reg: Registry) returns (ok: bool)
      modifies this
      ensures Does(GenerateOps(r, reg), old(tree), tree, ok)
    {
      ghost var a, b, c, d := RootOps(reg.providers), AliasOps(r, reg), SkillOps(reg.skills), CustomOps(r, reg.customs);
      ok := WriteRootAdapters(reg.providers);
      if !ok {
        DoesFail(a, GenerateOps(r, reg), old(tree), tree);
        return;
      }
      ghost var t := tree;
      ok := WriteAgents(r, reg);
      DoesMore(a, b, old(tree), t, tree, ok);
      if !ok {
        DoesFail(a + b, GenerateOps(r, reg), old(tree), tree);
        return;
      }
      t := tree;
      ok := CopySkills(reg.skills);
      DoesMore(a + b, c, old(tree), t, tree, ok);
      if !ok {
        DoesFail(a + b + c, GenerateOps(r, reg), old(tree), tree);
        return;
      }
      t := tree;
      ok := WriteCustomAgents(r, reg.customs);
      DoesMore(a + b + c, d, old(tree), t, tree, ok);
    }

    /** The steps of a valid registry. */
    method RunPlan(r: Renderers, reg: Registry) returns (ok: bool)
      modifies this
      ensures Does(Plan(r, reg), old(tree), tree, ok)
    {
      ghost var a, b, c := CleanOps(CleanDirs(reg)), RemoveOps(reg), GenerateOps(r, reg);
      ok := CleanDirectories(CleanDirs(reg));
      if !ok {
        DoesFail(a, Plan(r, reg), old(tree), tree);
        return;
      }
      ghost var t := tree;
      ok := RemoveStaleAdapters(reg);
      DoesMore(a, b, old(tree), t, tree, ok);
      if !ok {
        DoesFail(a + b, Plan(r, reg), old(tree), tree);
        return;
      }
      t := tree;
      ok := Generate(r, reg);
      DoesMore(a + b, c, old(tree), t, tree, ok);
    }

    /** syncProviderAdapters; not ok: it throws. */
    method SyncProviderAdapters(r: Renderers, reg: Registry) returns (ok: bool)
      modifies this
      ensures !Valid(reg) ==> !ok && tree == old(tree)
      ensures Ordinary(reg) && ok ==> Sync(r, reg, old(tree)) == Some(tree)
      ensures Ordinary(reg) && !ok ==> Sync(r, reg, old(tree)) == None
      ensures Ordinary(reg) ==> SameAgents(old(tree), tree)
    {
      if !Valid(reg) {
        return false;
      }
      if Ordinary(reg) {
        PlanPlaces(r, reg);
      }
      ok := RunPlan(r, reg);
    }

    /** checkProviderAdapters; not ok: it throws. The repository itself is only read. */
    method CheckProviderAdapters(r: Renderers, reg: Registry) returns (ok: bool)
      ensures Ordinary(reg) ==> (ok <==> Check(r, reg, tree))
    {
      var staging := new Workspace(Stage(tree));
      ok := staging.SyncProviderAdapters(r, reg);
      if !ok {
        return;
      }
      for i := 0 to |SURFACES|
        invariant forall j :: 0 <= j < i ==> SurfaceCurrent(tree, staging.tree, SURFACES[j])
      {
        if !SurfaceCurrent(tree, staging.tree, SURFACES[i]) {
          assert SURFACES[i] in SURFACES;
          return false;
        }
      }
    }
  }
}

/**
 * When a registry passes the checks of syncProviderAdapters, and what path.posix.normalize
 * makes of a configured path (scripts/agentic/sync-provider-adapters.ts).
 */
module AdapterRegistry {
  import opened Wrappers
  import opened FileTree
  import opened AdapterOps
  import opened AdapterPlan

  // --- Normalized paths -----------------------------------------------------------------

  predicate PlainPart(part: string) {
    part != "" && part != "." && part != ".."
  }

  predicate AllPlain(raw: Raw) {
    forall i :: 0 <= i < |raw| ==> PlainPart(raw[i])
  }

  lemma {:induction false} NormalFromAppend(a: Raw, b: Raw, acc: Path)
    ensures NormalFrom(a + b, acc) == NormalFrom(b, NormalFrom(a, acc))
  {
    if a == [] {
      assert a + b == b;
    } else {
      assert (a + b)[1..] == a[1..] + b && (a + b)[0] == a[0];
      NormalFromAppend(a[1..], b, if a[0] == "" || a[0] == "." then acc
                                  else if a[0] == ".." && acc != [] && acc[|acc| - 1] != ".." then acc[..|acc| - 1]
                                  else acc + [a[0]]);
    }
  }

  /** Empty parts and single dots do not matter, and a name followed by two dots cancels, anywhere. */
  lemma NormalDrops(a: Raw, b: Raw, name: string)
    ensures Normal(a + [""] + b) == Normal(a + b)
    ensures Normal(a + ["."] + b) == Normal(a + b)
    ensures PlainPart(name) ==> Normal(a + [name, ".."] + b) == Normal(a + b)
  {
    NormalFromAppend(a, b, []);
    NormalFromAppend(a + [""], b, []);
    NormalFromAppend(a, [""], []);
    NormalFromAppend(a + ["."], b, []);
    NormalFromAppend(a, ["."], []);
    NormalFromAppend(a + [name, ".."], b, []);
    NormalFromAppend(a, [name, ".."], []);
    var acc := NormalFrom(a, []);
    assert [""][1..] == [] && ["."][1..] == [];
    if PlainPart(name) {
      assert [name, ".."][1..] == [".."] && [".."][1..] == [];
      assert (acc + [name])[..|acc|] == acc;
      assert NormalFrom([name, ".."], acc) == NormalFrom([".."], acc + [name]) == NormalFrom([], acc) == acc;
    }
  }

  /** Some steps upward. */
  function Ups(n: nat): Raw {
    seq(n, _ => "..")
  }

  /** Nothing else changes: steps upward followed by plain names are normal. */
  lemma NormalStays(n: nat, rest: Raw)
    requires AllPlain(rest)
    ensures Normal(Ups(n) + rest) == Ups(n) + rest
  {
    NormalFromAppend(Ups(n), rest, []);
    UpsStay(n, 0);
    assert Ups(0) == [];
    PlainStays(rest, Ups(n));
  }

  lemma {:induction false} UpsStay(n: nat, done: nat)
    ensures NormalFrom(Ups(n), Ups(done)) == Ups(done + n)
    decreases n
  {
    if n > 0 {
      assert Ups(n)[1..] == Ups(n - 1) && Ups(done) + [".."] == Ups(done + 1);
      UpsStay(n - 1, done + 1);
    }
  }

  lemma {:induction false} PlainStays(raw: Raw, acc: Path)
    requires AllPlain(raw)
    ensures NormalFrom(raw, acc) == acc + raw
  {
    if raw != [] {
      PlainStays(raw[1..], acc + [raw[0]]);
      assert acc + [raw[0]] + raw[1..] == acc + raw;
    } else {
      assert acc + raw == acc;
    }
  }

  // --- When a registry is valid -------------------------------------------------------------

  predicate Absolute(raw: Raw) {
    |raw| > 1 && raw[0] == ""
  }

  predicate EndsInSlash(raw: Raw) {
    |raw| > 1 && raw[|raw| - 1] == ""
  }

  predicate InsideOf(raw: Raw, dir: Path) {
    !Absolute(raw) && |Normal(raw)| > 2 && Normal(raw)[..2] == dir
  }

  predicate IsAt(raw: Raw, place: Path) {
    !Absolute(raw) && !EndsInSlash(raw) && Normal(raw) == place
  }

  predicate ProviderOffends(p: Provider) {
    || !(p.name == "codex" || p.name == "claude" || p.name == "gemini" || p.name == "github-copilot")
    || (p.root.Some? && p.root.value != [""] &&
        !IsAt(p.root.value, ["CODEX.md"]) && !IsAt(p.root.value, ["CLAUDE.md"]) &&
        !IsAt(p.root.value, [".github", "copilot-instructions.md"]))
    || (p.aliasDir.Some? && p.aliasDir.value != [""] &&
        !IsAt(p.aliasDir.value, [".claude", "agents"]) && !IsAt(p.aliasDir.value, [".github", "agents"]))
  }

  predicate UnknownProvider(reg: Registry, name: string) {
    forall p :: p in reg.providers ==> p.name != name
  }

  predicate SkillOffends(reg: Registry, s: Skill) {
    || (exists name :: name in s.providers && UnknownProvider(reg, name))
    || !InsideOf(s.canonical, [".agents", "skills"])
    || (exists m :: m in s.mirrors && m != s.canonical &&
                    !InsideOf(m, [".claude", "skills"]) && !InsideOf(m, [".github", "skills"]))
  }

  predicate CustomOffends(reg: Registry, c: CustomAgent) {
    || (exists tool :: tool in c.tools && tool != "read" && tool != "search" && tool != "edit")
    || (exists name :: name in c.requiredSkills && forall s :: s in reg.skills ==> s.name != name)
    || (exists m :: m in c.mirrors && UnknownProvider(reg, m.0))
    || Absolute(c.prompt) || Normal(c.prompt) == [] || Normal(c.prompt)[0] == ".."
    || (exists m :: m in c.mirrors && !InsideOf(m.1, [".claude", "agents"]) && !InsideOf(m.1, [".github", "agents"]))
  }

  predicate TwoSkills(skills: seq<Skill>) {
    exists i, j :: 0 <= i < j < |skills| && skills[i].name == skills[j].name
  }

  predicate TwoAgents(agents: seq<Agent>) {
    exists i, j :: 0 <= i < j < |agents| && agents[i].name == agents[j].name
  }

  predicate TwoCustoms(customs: seq<CustomAgent>) {
    exists i, j :: 0 <= i < j < |customs| && customs[i].name == customs[j].name
  }

  /** Something in the registry for which the synchronization throws before it deletes anything. */
  predicate Offends(reg: Registry) {
    || TwoSkills(reg.skills) || TwoAgents(reg.agents) || TwoCustoms(reg.customs)
    || (exists p :: p in reg.providers && ProviderOffends(p))
    || (exists a, name :: a in reg.agents && name in a.aliases && UnknownProvider(reg, name))
    || (exists s :: s in reg.skills && SkillOffends(reg, s))
    || (exists c :: c in reg.customs && CustomOffends(reg, c))
  }

  lemma ProviderExactly(p: Provider)
    ensures ValidProvider(p) <==> !ProviderOffends(p)
  {
    Names();
    if Given(p.root) {
      RootResolves(p.root.value);
    }
    if Given(p.aliasDir) {
      assert ".claude"[1] != '.' && ".github"[1] != '.' && ".."[1] == '.';
    }
  }

  lemma RootResolves(raw: Raw)
    ensures AllowedRoot(raw) ==> Resolve(raw).Some?
  {
    assert "CODEX.md"[0] != '.' && "CLAUDE.md"[0] != '.' && ".github"[1] != '.' && ".."[0] == '.' && ".."[1] == '.';
  }

  lemma InsideExactly(raw: Raw, dir: Path)
    requires dir in [AGENT_SKILLS, CLAUDE_SKILLS, GITHUB_SKILLS, CLAUDE_AGENTS, GITHUB_AGENTS]
    ensures InsideOf(raw, dir) <==> Relative(raw) && dir < Normal(raw)
    ensures InsideOf(raw, dir) ==> Resolve(raw).Some?
  {
    assert ".agents"[1] != '.' && ".claude"[1] != '.' && ".github"[1] != '.' && ".."[1] == '.';
    assert InsideOf(raw, dir) ==> Normal(raw)[0] == dir[0];
  }

  lemma SkillExactly(reg: Registry, s: Skill)
    ensures ValidSkill(reg, s) <==> !SkillOffends(reg, s)
  {
    InsideExactly(s.canonical, AGENT_SKILLS);
    forall m ensures InsideOf(m, CLAUDE_SKILLS) || InsideOf(m, GITHUB_SKILLS) <==> AllowedSkillMirror(m)
             ensures AllowedSkillMirror(m) ==> Resolve(m).Some?
    {
      InsideExactly(m, CLAUDE_SKILLS);
      InsideExactly(m, GITHUB_SKILLS);
    }
    assert forall name :: UnknownProvider(reg, name) <==> !HasProvider(reg, name);
  }

  lemma CustomExactly(reg: Registry, c: CustomAgent)
    ensures ValidCustom(reg, c) <==> !CustomOffends(reg, c)
  {
    forall m: Raw ensures InsideOf(m, CLAUDE_AGENTS) || InsideOf(m, GITHUB_AGENTS) <==> AllowedAgentMirror(m)
                  ensures AllowedAgentMirror(m) ==> Resolve(m).Some?
    {
      InsideExactly(m, CLAUDE_AGENTS);
      InsideExactly(m, GITHUB_AGENTS);
    }
    assert forall name :: UnknownProvider(reg, name) <==> !HasProvider(reg, name);
  }

  /** The registry passes all checks exactly when nothing in it offends. */
  lemma ValidExactly(reg: Registry)
    ensures Valid(reg) <==> !Offends(reg)
  {
    forall p | p in reg.providers ensures ValidProvider(p) <==> !ProviderOffends(p) {
      ProviderExactly(p);
    }
    forall s | s in reg.skills ensures ValidSkill(reg, s) <==> !SkillOffends(reg, s) {
      SkillExactly(reg, s);
    }
    forall c | c in reg.customs ensures ValidCustom(reg, c) <==> !CustomOffends(reg, c) {
      CustomExactly(reg, c);
    }
    assert forall name :: UnknownProvider(reg, name) <==> !HasProvider(reg, name);
    NamesExactly(reg);
  }

  lemma NamesExactly(reg: Registry)
    ensures Distinct(SkillNames(reg.skills)) <==> !TwoSkills(reg.skills)
    ensures Distinct(AgentNames(reg.agents)) <==> !TwoAgents(reg.agents)
    ensures Distinct(CustomNames(reg.customs)) <==> !TwoCustoms(reg.customs)
  {
    assert forall i :: 0 <= i < |reg.skills| ==> SkillNames(reg.skills)[i] == reg.skills[i].name;
    assert forall i :: 0 <= i < |reg.agents| ==> AgentNames(reg.agents)[i] == reg.agents[i].name;
    assert forall i :: 0 <= i < |reg.customs| ==> CustomNames(reg.customs)[i] == reg.customs[i].name;
  }
}

/**
 * The steps of the adapter generator, and what each does to a path of the tree.
 *
 * Every step leaves a path alone or gives it a value that depends only on the `.agents`
 * part of the tree.  That, and the conditions under which a step does not throw, is all
 * that the theorems about whole runs need.
 */
module AdapterOps {
  import opened Wrappers
  import opened Text
  import opened FileTree

  const AGENTS: Path := [".agents"]

  datatype Op =
    | Clean(dir: Path)
    | Remove(file: Path)
    | Adapter(target: Path, text: string)              // mkdir -p and write
    | Emit(target: Path, text: string)                 // write into an existing directory
    | Mirror(source: Path, target: Path, github: bool) // copySkillDirectory
    | ReadPrompt(prompt: Path)
    | Prompt(target: Path, prompt: Path, before: string, after: string)
    | Throw

  function PromptText(t: Tree, op: Op): string
    requires op.Prompt? && IsFile(t, op.prompt)
  {
    op.before + Trim(t[op.prompt].text) + op.after
  }

  function Apply(op: Op, t: Tree): Option<Tree> {
    match op
    case Clean(dir) => CleanDirectory(t, dir)
    case Remove(file) => RemoveFile(t, file)
    case Adapter(target, text) => Render(t, target, text)
    case Emit(target, text) => WriteFile(t, target, text)
    case Mirror(source, target, github) => MirrorSkill(t, source, target, github)
    case ReadPrompt(prompt) => if IsFile(t, prompt) then Some(t) else None
    case Prompt(target, prompt, _, _) => if IsFile(t, prompt) then Render(t, target, PromptText(t, op)) else None
    case Throw => None
  }

  // --- When a step does not throw -----------------------------------------------------

  /** No directory on the way to `p` is a file. */
  predicate ClearWay(t: Tree, p: Path) {
    forall q :: q in t && q < p ==> t[q].Dir?
  }

  /** A source that can be copied for the target directory. */
  predicate Copyable(t: Tree, source: Path, github: bool) {
    && source in t
    && (github && source + ["SKILL.md"] in t ==>
          t[source].Dir? && IsFile(t, source + ["SKILL.md"]) && !IsDir(t, source + ["skill.md"]))
  }

  predicate Succeeds(op: Op, t: Tree) {
    match op
    case Clean(dir) => ClearWay(t, dir)
    case Remove(file) => ClearWay(t, file) && !IsDir(t, file)
    case Adapter(target, _) => target != [] && ClearWay(t, target) && !IsDir(t, target)
    case Emit(target, _) => target != [] && IsDir(t, Parent(target)) && !IsDir(t, target)
    case Mirror(source, target, github) => ClearWay(t, target) && Copyable(t, source, github)
    case ReadPrompt(prompt) => IsFile(t, prompt)
    case Prompt(target, prompt, _, _) =>
      IsFile(t, prompt) && target != [] && ClearWay(t, target) && !IsDir(t, target)
    case Throw => false
  }

  /** Targets lie outside `.agents`, sources inside. */
  predicate Separate(op: Op) {
    match op
    case Clean(dir) => dir != [] && !(AGENTS <= dir)
    case Remove(file) => file != [] && !(AGENTS <= file)
    case Adapter(target, _) => target != [] && !(AGENTS <= target)
    case Emit(target, _) => target != [] && !(AGENTS <= target)
    case Mirror(source, target, _) => target != [] && !(AGENTS <= target) && AGENTS <= source
    case ReadPrompt(prompt) => AGENTS <= prompt
    case Prompt(target, prompt, _, _) => target != [] && !(AGENTS <= target) && AGENTS <= prompt
    case Throw => true
  }

  // --- What a step does to a path -------------------------------------------------------

  /** None: the path keeps its entry.  Some(e): it has the entry e afterwards (or none). */
  type Effect = Option<Option<Entry>>

  function CopiedEntry(t: Tree, source: Path, target: Path, github: bool, p: Path): Option<Entry>
    requires target <= p
  {
    if github && p == target + ["skill.md"] && IsFile(t, source + ["SKILL.md"])
    then Lookup(t, source + ["SKILL.md"])
    else Lookup(t, source + p[|target|..])
  }

  function EffectOf(op: Op, t: Tree, p: Path): Effect {
    match op
    case Clean(dir) => if p <= dir then Some(Some(Dir)) else if dir <= p then Some(None) else None
    case Remove(file) => if p == file then Some(None) else None
    case Adapter(target, text) =>
      if p == target then Some(Some(File(text))) else if p < target then Some(Some(Dir)) else None
    case Emit(target, text) => if p == target then Some(Some(File(text))) else None
    case Mirror(source, target, github) =>
      if target <= p then Some(CopiedEntry(t, source, target, github, p))
      else if p < target then Some(Some(Dir)) else None
    case ReadPrompt(_) => None
    case Prompt(target, prompt, _, _) =>
      if p == target then Some(if IsFile(t, prompt) then Some(File(PromptText(t, op))) else None)
      else if p < target then Some(Some(Dir)) else None
    case Throw => None
  }

  function After(e: Effect, before: Option<Entry>): Option<Entry> {
    match e case Some(v) => v case None => before
  }

  lemma CleanLookup(t: Tree, dir: Path, p: Path)
    ensures Apply(Clean(dir), t).Some? <==> Succeeds(Clean(dir), t)
    ensures Apply(Clean(dir), t).Some? ==>
              Lookup(Apply(Clean(dir), t).value, p) == After(EffectOf(Clean(dir), t, p), Lookup(t, p))
  {
    ClearAfterRemoval(t, dir, dir);
  }

  /** mkdir -p after removing everything at and under the place. */
  lemma ClearAfterRemoval(t: Tree, removed: Path, dir: Path)
    requires removed == dir || (removed != [] && dir == Parent(removed))
    ensures MkdirP(RemoveAll(t, removed), dir).Some? <==> ClearWay(t, removed)
  {
    var u := RemoveAll(t, removed);
    if ClearWay(t, removed) {
      assert forall q :: q in u && q <= dir ==> q < removed && t[q].Dir?;
    } else {
      var q :| q in t && q < removed && !t[q].Dir?;
      assert q in u && q <= dir && u[q].File?;
    }
  }

  lemma ClearParent(t: Tree, target: Path)
    requires target != []
    ensures MkdirP(t, Parent(target)).Some? <==> ClearWay(t, target)
  {
    if ClearWay(t, target) {
      assert forall q :: q in t && q <= Parent(target) ==> q < target && t[q].Dir?;
    } else {
      var q :| q in t && q < target && !t[q].Dir?;
      assert q <= Parent(target) && t[q].File?;
    }
  }

  lemma RenderLookup(t: Tree, target: Path, text: string, p: Path)
    ensures Render(t, target, text).Some? <==> Succeeds(Adapter(target, text), t)
    ensures Render(t, target, text).Some? ==>
              Lookup(Render(t, target, text).value, p) == After(EffectOf(Adapter(target, text), t, p), Lookup(t, p))
  {
    if target != [] {
      ClearParent(t, target);
      assert p < target <==> p <= Parent(target);
      assert !(target <= Parent(target));
    }
  }

  /** The tree before the copy: the target is free and its directory is there. */
  lemma PreparedLookup(t: Tree, target: Path, p: Path)
    requires target != [] && ClearWay(t, target)
    ensures MkdirP(RemoveAll(t, target), Parent(target)).Some?
    ensures Lookup(MkdirP(RemoveAll(t, target), Parent(target)).value, p)
         == if target <= p then None else if p < target then Some(Dir) else Lookup(t, p)
  {
    ClearAfterRemoval(t, target, Parent(target));
    assert p < target <==> p <= Parent(target);
  }

  lemma CopyLookup(u: Tree, source: Path, target: Path, p: Path)
    requires source in u && Lookup(u, p).None? == !(p in u)
    requires target <= p ==> p !in u
    ensures Lookup(Copy(u, source, target).value, p)
         == if target <= p then Lookup(u, source + p[|target|..]) else Lookup(u, p)
  {
  }

  lemma AgentsApart(target: Path, q: Path)
    requires AGENTS <= q && target != [] && !(AGENTS <= target)
    ensures !(target <= q) && !(q < target)
  {
  }

  /** The tree after the copy. */
  lemma CopiedLookup(t: Tree, source: Path, target: Path, p: Path)
    requires Separate(Mirror(source, target, false))
    ensures ReplaceByCopy(t, source, target).Some? <==> ClearWay(t, target) && source in t
    ensures ReplaceByCopy(t, source, target).Some? ==>
              Lookup(ReplaceByCopy(t, source, target).value, p)
              == if target <= p then Lookup(t, source + p[|target|..])
                 else if p < target then Some(Dir) else Lookup(t, p)
  {
    ClearAfterRemoval(t, target, Parent(target));
    if ClearWay(t, target) {
      PreparedLookup(t, target, source);
      AgentsApart(target, source);
      PreparedLookup(t, target, p);
      var u := MkdirP(RemoveAll(t, target), Parent(target)).value;
      if source in t {
        CopyLookup(u, source, target, p);
        if target <= p {
          var q := source + p[|target|..];
          assert AGENTS <= q;
          AgentsApart(target, q);
          PreparedLookup(t, target, q);
        }
      }
    }
  }

  /** The tree with the skill file, from the tree after the copy. */
  lemma SkillFileLookup(t: Tree, v: Tree, source: Path, target: Path, github: bool, p: Path)
    requires source in t
    requires Lookup(v, target) == Lookup(t, source)
    requires Lookup(v, target + ["SKILL.md"]) == Lookup(t, source + ["SKILL.md"])
    requires Lookup(v, target + ["skill.md"]) == Lookup(t, source + ["skill.md"])
    ensures AddSkillFile(v, target, github).Some? <==> Copyable(t, source, github)
    ensures AddSkillFile(v, target, github).Some? ==>
              Lookup(AddSkillFile(v, target, github).value, p)
              == if github && p == target + ["skill.md"] && IsFile(t, source + ["SKILL.md"])
                 then Lookup(t, source + ["SKILL.md"]) else Lookup(v, p)
  {
    assert Parent(target + ["skill.md"]) == target;
  }

  lemma CopiedChild(t: Tree, source: Path, target: Path, rest: Path)
    requires Separate(Mirror(source, target, false)) && ReplaceByCopy(t, source, target).Some?
    ensures Lookup(ReplaceByCopy(t, source, target).value, target + rest) == Lookup(t, source + rest)
  {
    CopiedLookup(t, source, target, target + rest);
    assert (target + rest)[|target|..] == rest;
  }

  /** What copySkillDirectory makes of a path. */
  lemma MirrorLookup(t: Tree, source: Path, target: Path, github: bool, p: Path)
    requires Separate(Mirror(source, target, github))
    ensures MirrorSkill(t, source, target, github).Some? <==> ClearWay(t, target) && Copyable(t, source, github)
    ensures MirrorSkill(t, source, target, github).Some? ==>
              Lookup(MirrorSkill(t, source, target, github).value, p)
              == After(EffectOf(Mirror(source, target, github), t, p), Lookup(t, p))
  {
    CopiedLookup(t, source, target, p);
    if ReplaceByCopy(t, source, target).Some? {
      CopiedChild(t, source, target, []);
      CopiedChild(t, source, target, ["SKILL.md"]);
      CopiedChild(t, source, target, ["skill.md"]);
      assert source + [] == source && target + [] == target;
      SkillFileLookup(t, ReplaceByCopy(t, source, target).value, source, target, github, p);
    }
  }

  /** A step succeeds exactly when it can, and then has the described effect on every path. */
  lemma StepEffect(op: Op, t: Tree, p: Path)
    requires Separate(op)
    ensures Apply(op, t).Some? <==> Succeeds(op, t)
    ensures Apply(op, t).Some? ==> Lookup(Apply(op, t).value, p) == After(EffectOf(op, t, p), Lookup(t, p))
  {
    match op {
      case Clean(dir) => CleanLookup(t, dir, p);
      case Remove(file) => RemoveLookup(t, file, p);
      case Adapter(target, text) => RenderLookup(t, target, text, p);
      case Mirror(source, target, github) => MirrorLookup(t, source, target, github, p);
      case Prompt(target, prompt, before, after) =>
        if IsFile(t, prompt) {
          RenderLookup(t, target, PromptText(t, op), p);
        }
      case Emit(_, _) =>
      case ReadPrompt(_) =>
      case Throw =>
    }
  }

  lemma RemoveLookup(t: Tree, file: Path, p: Path)
    ensures RemoveFile(t, file).Some? <==> Succeeds(Remove(file), t)
    ensures RemoveFile(t, file).Some? ==>
              Lookup(RemoveFile(t, file).value, p) == After(EffectOf(Remove(file), t, p), Lookup(t, p))
  {
  }
}

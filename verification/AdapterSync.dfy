/**
 * syncProviderAdapters and checkProviderAdapters
 * (scripts/agentic/sync-provider-adapters.ts): synchronizing is idempotent, leaves
 * `.agents` alone, and satisfies the check.
 */
module AdapterSync {
  import opened Wrappers
  import opened FileTree
  import opened AdapterOps
  import opened AdapterRuns
  import opened AdapterPlan

  // --- Synchronizing twice ----------------------------------------------------------------

  lemma SyncLeavesAgentsAlone(r: Renderers, reg: Registry, t: Tree)
    requires Ordinary(reg) && Sync(r, reg, t).Some?
    ensures SameAgents(t, Sync(r, reg, t).value)
  {
    PlanPlaces(r, reg);
    RunKeepsAgents(Plan(r, reg), t);
  }

  /** The plan also runs on every tree that has the same `.agents` and otherwise part of the result. */
  lemma SyncRunsWithin(r: Renderers, reg: Registry, t: Tree, u: Tree)
    requires Ordinary(reg) && Sync(r, reg, t).Some? && Within(u, Sync(r, reg, t).value)
    ensures Sync(r, reg, u).Some?
  {
    var ops := Plan(r, reg);
    PlanTidy(r, reg);
    PlanPlaces(r, reg);
    RunsAgain(CleanDirs(reg), |CleanDirs(reg)| + |RemoveOps(reg)|, ops, t, u);
  }

  /** A second synchronization succeeds and changes nothing. */
  lemma SyncIdempotent(r: Renderers, reg: Registry, t: Tree)
    requires Ordinary(reg) && Sync(r, reg, t).Some?
    ensures Sync(r, reg, Sync(r, reg, t).value) == Sync(r, reg, t)
  {
    PlanPlaces(r, reg);
    SyncRunsWithin(r, reg, t, Sync(r, reg, t).value);
    RepeatChangesNothing(Plan(r, reg), t);
  }

  // --- The check ------------------------------------------------------------------------------

  const SURFACES: seq<Path> := ROOT_ADAPTERS + [CLAUDE_AGENTS, CLAUDE_SKILLS, GITHUB_AGENTS, GITHUB_SKILLS]

  predicate InSurface(p: Path) {
    exists s :: s in SURFACES && s <= p
  }

  /** The directories above what is copied into the staging directory. */
  predicate AboveCopied(t: Tree, p: Path) {
    p == [] || exists s :: s in SURFACES && s in t && p == Parent(s)
  }

  /** The staging directory: `.agents` and the generated surfaces that are there. */
  function Stage(t: Tree): Tree {
    (map p | p in t && (AGENTS <= p || InSurface(p)) :: t[p])
    + (map p | p in {[], [".claude"], [".github"]} && AboveCopied(t, p) :: Dir)
  }

  /** One generated surface of the repository against the staging directory. */
  predicate SurfaceCurrent(t: Tree, staged: Tree, surface: Path) {
    surface in t ==>
      match t[surface]
      case File(text) => Lookup(staged, surface) == Some(File(text))
      case Dir =>
        && !IsFile(staged, surface)
        && (forall p :: p in t.Keys + staged.Keys && surface <= p && (IsFile(t, p) || IsFile(staged, p)) ==>
              Lookup(t, p) == Lookup(staged, p))
  }

  /** checkProviderAdapters does not throw. It works on the staging directory only. */
  predicate Check(r: Renderers, reg: Registry, t: Tree) {
    match Sync(r, reg, Stage(t))
    case None => false
    case Some(staged) => forall s :: s in SURFACES ==> SurfaceCurrent(t, staged, s)
  }

  lemma SurfaceApart(p: Path)
    requires InSurface(p)
    ensures p != [] && p != [".claude"] && p != [".github"]
  {
    Names();
    var s :| s in SURFACES && s <= p;
    assert |s| == 1 ==> p[0] == s[0];
  }

  lemma StageLookup(t: Tree, p: Path)
    ensures InSurface(p) || AGENTS <= p ==> Lookup(Stage(t), p) == Lookup(t, p)
    ensures Lookup(Stage(t), p) == Lookup(t, p) || Lookup(Stage(t), p) == None
         || (Lookup(Stage(t), p) == Some(Dir) && p in [[], [".claude"], [".github"]])
  {
    Names();
    if InSurface(p) {
      SurfaceApart(p);
    }
    if AGENTS <= p {
      assert p[0] == ".agents";
    }
  }

  lemma FirstSteps(r: Renderers, reg: Registry)
    requires Valid(reg)
    ensures var ops := Plan(r, reg);
            |ops| >= 2 && ops[0] == Clean(CLAUDE_SKILLS) && ops[1] == Clean(GITHUB_SKILLS)
  {
  }

  /** What is above a generated directory, and untouched before it is made, is there in the end. */
  lemma AboveStep(r: Renderers, reg: Registry, t: Tree, i: nat, p: Path)
    requires Ordinary(reg) && Sync(r, reg, t).Some?
    requires i < |Plan(r, reg)| && Plan(r, reg)[i].Clean? && p < Plan(r, reg)[i].dir
    requires !MaskedBy(Plan(r, reg), i, p)
    ensures IsDir(Sync(r, reg, t).value, p)
  {
    PlanTidy(r, reg);
    PlanPlaces(r, reg);
    WayInResult(CleanDirs(reg), |CleanDirs(reg)| + |RemoveOps(reg)|, Plan(r, reg), i, t, p);
  }

  /** After a synchronization, the directories above the surfaces are there. */
  lemma SpineThere(r: Renderers, reg: Registry, t: Tree, p: Path)
    requires Ordinary(reg) && Sync(r, reg, t).Some? && p in [[], [".claude"], [".github"]]
    ensures IsDir(Sync(r, reg, t).value, p)
  {
    FirstSteps(r, reg);
    if p == [".github"] {
      Names();
      NoPrefix(p, CLAUDE_SKILLS, 0);
      NoPrefix(CLAUDE_SKILLS, p, 0);
      assert !Masks(Plan(r, reg)[0], p);
      AboveStep(r, reg, t, 1, p);
    } else {
      AboveStep(r, reg, t, 0, p);
    }
  }

  lemma StageWithin(r: Renderers, reg: Registry, t: Tree)
    requires Ordinary(reg) && Sync(r, reg, t).Some?
    ensures Within(Stage(Sync(r, reg, t).value), Sync(r, reg, t).value)
  {
    var final := Sync(r, reg, t).value;
    forall p ensures AGENTS <= p ==> Lookup(Stage(final), p) == Lookup(final, p)
             ensures Lookup(Stage(final), p) == Lookup(final, p) || Lookup(Stage(final), p) == None
    {
      StageLookup(final, p);
      if p in [[], [".claude"], [".github"]] {
        SpineThere(r, reg, t, p);
      }
    }
  }

  /** On a surface, synchronizing the tree and its staging directory gives the same. */
  lemma StagedSurface(r: Renderers, reg: Registry, t: Tree, p: Path)
    requires Ordinary(reg) && Sync(r, reg, t).Some? && Sync(r, reg, Stage(t)).Some? && InSurface(p)
    ensures Lookup(Sync(r, reg, Stage(t)).value, p) == Lookup(Sync(r, reg, t).value, p)
  {
    var ops := Plan(r, reg);
    PlanPlaces(r, reg);
    forall q | AGENTS <= q ensures Lookup(Stage(t), q) == Lookup(t, q) {
      StageLookup(t, q);
    }
    StageLookup(t, p);
    RunLookup(ops, t, p);
    RunLookup(ops, Stage(t), p);
    OutcomeFromAgents(ops, t, Stage(t), p);
  }

  /** The check succeeds right after a synchronization. */
  lemma CheckAfterSync(r: Renderers, reg: Registry, t: Tree)
    requires Ordinary(reg) && Sync(r, reg, t).Some?
    ensures Check(r, reg, Sync(r, reg, t).value)
  {
    var final := Sync(r, reg, t).value;
    StageWithin(r, reg, t);
    SyncRunsWithin(r, reg, t, Stage(final));
    SyncIdempotent(r, reg, t);
    var staged := Sync(r, reg, Stage(final)).value;
    forall s | s in SURFACES ensures SurfaceCurrent(final, staged, s) {
      forall p | s <= p ensures Lookup(staged, p) == Lookup(final, p) {
        assert InSurface(p);
        StagedSurface(r, reg, final, p);
      }
      SameSurface(final, staged, s);
    }
  }

  lemma SameSurface(t: Tree, staged: Tree, s: Path)
    requires forall p :: s <= p ==> Lookup(staged, p) == Lookup(t, p)
    ensures SurfaceCurrent(t, staged, s)
  {
    assert Lookup(staged, s) == Lookup(t, s);
  }

  /**
   * When the check succeeds, a synchronization changes no file of a surface that is there
   * (under a surface that is a file there is nothing).
   */
  lemma CheckMeansCurrent(r: Renderers, reg: Registry, t: Tree, s: Path, p: Path)
    requires Ordinary(reg) && Check(r, reg, t) && Sync(r, reg, t).Some?
    requires s in SURFACES && s in t && s <= p && (p == s || IsDir(t, s))
    requires IsFile(t, p) || IsFile(Sync(r, reg, t).value, p)
    ensures Lookup(Sync(r, reg, t).value, p) == Lookup(t, p)
  {
    assert InSurface(p) && InSurface(s);
    StagedSurface(r, reg, t, p);
    StagedSurface(r, reg, t, s);
    CurrentFile(t, Sync(r, reg, Stage(t)).value, Sync(r, reg, t).value, s, p);
  }

  lemma CurrentFile(t: Tree, staged: Tree, synced: Tree, s: Path, p: Path)
    requires SurfaceCurrent(t, staged, s) && s in t && s <= p && (p == s || IsDir(t, s))
    requires Lookup(staged, p) == Lookup(synced, p) && (IsFile(t, p) || IsFile(synced, p))
    ensures Lookup(synced, p) == Lookup(t, p)
  {
  }

  /** Every generated surface that is there has the files it has in the synchronized tree. */
  predicate SurfacesCurrent(t: Tree, synced: Tree) {
    forall s :: s in SURFACES ==> SurfaceCurrent(t, synced, s)
  }

  lemma SurfaceAgrees(t: Tree, a: Tree, b: Tree, s: Path)
    requires forall p :: s <= p ==> Lookup(a, p) == Lookup(b, p)
    ensures SurfaceCurrent(t, a, s) <==> SurfaceCurrent(t, b, s)
  {
    assert Lookup(a, s) == Lookup(b, s);
    forall p | s <= p ensures IsFile(a, p) == IsFile(b, p) {
      assert Lookup(a, p) == Lookup(b, p);
    }
    if SurfaceCurrent(t, a, s) {
      SurfaceFollows(t, a, b, s);
    }
    if SurfaceCurrent(t, b, s) {
      SurfaceFollows(t, b, a, s);
    }
  }

  lemma SurfaceFollows(t: Tree, a: Tree, b: Tree, s: Path)
    requires forall p :: s <= p ==> Lookup(a, p) == Lookup(b, p)
    requires SurfaceCurrent(t, a, s)
    ensures SurfaceCurrent(t, b, s)
  {
    assert Lookup(a, s) == Lookup(b, s);
    if s in t && t[s].Dir? {
      forall p | p in t.Keys + b.Keys && s <= p && (IsFile(t, p) || IsFile(b, p))
        ensures Lookup(t, p) == Lookup(b, p)
      {
        assert Lookup(a, p) == Lookup(b, p);
        assert p in t.Keys + a.Keys;
      }
    }
  }

  /**
   * The check succeeds exactly when synchronizing the staging directory does and every
   * surface that is there is as synchronizing the repository itself would leave it.
   */
  lemma CheckExactly(r: Renderers, reg: Registry, t: Tree)
    requires Ordinary(reg) && Sync(r, reg, t).Some?
    ensures Check(r, reg, t) <==> Sync(r, reg, Stage(t)).Some? && SurfacesCurrent(t, Sync(r, reg, t).value)
  {
    if Sync(r, reg, Stage(t)).Some? {
      var staged, synced := Sync(r, reg, Stage(t)).value, Sync(r, reg, t).value;
      forall s | s in SURFACES ensures SurfaceCurrent(t, staged, s) <==> SurfaceCurrent(t, synced, s) {
        forall p | s <= p ensures Lookup(staged, p) == Lookup(synced, p) {
          assert InSurface(p);
          StagedSurface(r, reg, t, p);
        }
        SurfaceAgrees(t, staged, synced, s);
      }
    }
  }
}

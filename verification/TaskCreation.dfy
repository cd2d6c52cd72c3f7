/**
 * Creating a task run from its risk areas (createTaskRun in
 * scripts/agentic/task-runtime.ts), and what its closure as done then guarantees.
 */
module TaskCreation {
  import opened Wrappers
  import opened Text
  import opened TaskRuns
  import opened TaskClosure

  datatype RiskPattern = RiskPattern(
    riskAreas: seq<string>, lessons: seq<string>, reviews: seq<string>, checks: seq<string>)

  datatype Skill = Skill(
    name: string, riskAreas: seq<string>, checks: seq<string>, reviews: seq<string>, e2e: bool)

  datatype Catalogs = Catalogs(template: TaskRun, patterns: seq<RiskPattern>, skills: seq<Skill>)

  datatype Input = Input(
    id: string,
    title: string,
    kind: Option<string>,
    ownerAgent: Option<string>,
    preferredProvider: Option<string>,
    riskAreas: seq<string>,
    originalRequest: Option<string>,
    normalizedRequest: Option<string>,
    improvementMode: Option<string>,
    missingInformation: seq<string>,
    executionBrief: Option<seq<string>>)

  predicate Overlap(a: seq<string>, b: seq<string>) {
    exists x :: x in a && x in b
  }

  /** What the items whose risk areas match give, one after the other. */
  function Collect<T>(
    items: seq<T>, areas: seq<string>, areasOf: T -> seq<string>, gives: T -> seq<string>): seq<string>
  {
    if items == [] then []
    else
      (if Overlap(areasOf(items[0]), areas) then gives(items[0]) else [])
      + Collect(items[1..], areas, areasOf, gives)
  }

  lemma {:induction false} CollectExact<T>(
    items: seq<T>, areas: seq<string>, areasOf: T -> seq<string>, gives: T -> seq<string>, x: string)
    ensures x in Collect(items, areas, areasOf, gives) <==>
              exists item :: item in items && Overlap(areasOf(item), areas) && x in gives(item)
  {
    if items != [] {
      CollectExact(items[1..], areas, areasOf, gives, x);
      assert items == [items[0]] + items[1..];
    }
  }

  function RequiredChecks(k: Catalogs, areas: seq<string>): seq<string> {
    var fromPatterns := Dedupe(
      k.template.header.required.checks
      + Collect(k.patterns, areas, (p: RiskPattern) => p.riskAreas, (p: RiskPattern) => p.checks));
    Dedupe(fromPatterns + Collect(k.skills, areas, (s: Skill) => s.riskAreas, (s: Skill) => s.checks))
  }

  function RequiredReviews(k: Catalogs, areas: seq<string>): seq<string> {
    var fromPatterns := Dedupe(
      k.template.header.required.reviews
      + Collect(k.patterns, areas, (p: RiskPattern) => p.riskAreas, (p: RiskPattern) => p.reviews));
    Dedupe(fromPatterns + Collect(k.skills, areas, (s: Skill) => s.riskAreas, (s: Skill) => s.reviews))
  }

  function RequiredLessons(k: Catalogs, areas: seq<string>): seq<string> {
    Dedupe(Collect(k.patterns, areas, (p: RiskPattern) => p.riskAreas, (p: RiskPattern) => p.lessons))
  }

  function RequiredSkills(k: Catalogs, areas: seq<string>): seq<string> {
    Dedupe(Collect(k.skills, areas, (s: Skill) => s.riskAreas, (s: Skill) => [s.name]))
  }

  function RequiredE2e(k: Catalogs, areas: seq<string>): Option<bool> {
    if "test_e2e" in RequiredChecks(k, areas)
       || (exists s :: s in k.skills && Overlap(s.riskAreas, areas) && s.e2e)
    then Some(true)
    else k.template.header.required.e2e
  }

  function RequirementsFor(k: Catalogs, areas: seq<string>): Requirements {
    Requirements(
      RequiredChecks(k, areas), RequiredReviews(k, areas), RequiredLessons(k, areas),
      Some(RequiredSkills(k, areas)), RequiredE2e(k, areas))
  }

  /** The task run that createTaskRun validates and writes. */
  function BuildTask(k: Catalogs, input: Input): TaskRun {
    var original := GetOr(input.originalRequest, input.title);
    var normalized := GetOr(input.normalizedRequest, original);
    var mode := GetOr(input.improvementMode, if normalized != original then "normalized" else "none");
    TaskRun(
      k.template.header.(
        id := input.id,
        title := input.title,
        kind := GetOr(input.kind, "implementation"),
        ownerAgent := GetOr(input.ownerAgent, "backend-implementer"),
        preferredProvider := Some(GetOr(input.preferredProvider, "codex")),
        context := Some(RequestContext(
          Some(original), Some(normalized), Some(mode), Some(Dedupe(input.missingInformation)),
          Some(Dedupe(GetOr(input.executionBrief, DEFAULT_EXECUTION_BRIEF))))),
        riskAreas := Dedupe(input.riskAreas),
        required := RequirementsFor(k, Dedupe(input.riskAreas))),
      Todo, k.template.evidence)
  }

  /** The request context of a new task needs no filling in. */
  lemma BuiltIsNormalized(k: Catalogs, input: Input)
    ensures Normalize(BuildTask(k, input).header) == BuildTask(k, input).header
  {
    DedupeDistinct(Dedupe(input.missingInformation));
    DedupeDistinct(Dedupe(GetOr(input.executionBrief, DEFAULT_EXECUTION_BRIEF)));
  }

  /** A new task holds what was asked for, with the source's defaults, and starts as todo. */
  lemma BuiltAsAsked(k: Catalogs, input: Input)
    ensures var task := BuildTask(k, input);
            && task.status == Todo && task.evidence == k.template.evidence
            && task.header.id == input.id && task.header.title == input.title
            && task.header.dependencies == k.template.header.dependencies
            && task.header.kind == (if input.kind.Some? then input.kind.value else "implementation")
            && task.header.ownerAgent
               == (if input.ownerAgent.Some? then input.ownerAgent.value else "backend-implementer")
            && task.header.preferredProvider
               == Some(if input.preferredProvider.Some? then input.preferredProvider.value else "codex")
            && (forall a :: a in task.header.riskAreas <==> a in input.riskAreas)
    ensures var context := BuildTask(k, input).header.context;
            var original := if input.originalRequest.Some? then input.originalRequest.value else input.title;
            var normalized := if input.normalizedRequest.Some? then input.normalizedRequest.value else original;
            && context.Some? && context.value.original == Some(original) && context.value.normalized == Some(normalized)
            && context.value.mode == Some(if input.improvementMode.Some? then input.improvementMode.value
                                          else if normalized == original then "none" else "normalized")
            && context.value.missing.Some? && context.value.brief.Some?
            && (forall x :: x in context.value.missing.value <==> x in input.missingInformation)
            && (input.executionBrief.Some? ==>
                  forall x :: x in context.value.brief.value <==> x in input.executionBrief.value)
            && (input.executionBrief.None? ==> context.value.brief.value == DEFAULT_EXECUTION_BRIEF)
  {
    DedupeDistinct(DEFAULT_EXECUTION_BRIEF);
  }

  /** Exactly which new tasks are valid. */
  lemma NewTaskValidExactly(tables: Tables, k: Catalogs, input: Input)
    ensures var required := RequirementsFor(k, Dedupe(input.riskAreas));
            var original := if input.originalRequest.Some? then input.originalRequest.value else input.title;
            var normalized := if input.normalizedRequest.Some? then input.normalizedRequest.value else original;
            ValidShape(tables, BuildTask(k, input).header) <==>
              && ValidId(input.id) && (forall d :: d in k.template.header.dependencies ==> ValidId(d))
              && (forall a :: a in input.riskAreas ==> a in tables.riskAreas)
              && (forall x :: x in required.checks ==> x in tables.checks)
              && (forall x :: x in required.reviews ==> x in tables.reviews)
              && (forall x :: x in required.skills.value ==> Trim(x) != "")
              && (required.e2e == Some(true) ==> "test_e2e" in required.checks)
              && (if input.ownerAgent.Some? then input.ownerAgent.value else "backend-implementer")
                 in tables.ownerAgents
              && (if input.preferredProvider.Some? then input.preferredProvider.value else "codex") in tables.providers
              && (input.preferredProvider == Some("gemini") ==> input.kind == Some("research"))
              && (if input.improvementMode.Some? then input.improvementMode.value
                  else if normalized == original then "none" else "normalized") in tables.modes
              && Trim(original) != "" && Trim(normalized) != ""
  {
    BuiltIsNormalized(k, input);
    assert GetRequestContext(BuildTask(k, input).header) == BuildTask(k, input).header.context.value;
  }

  /** createTaskRun: a new task file, unless the id is taken or the task is not valid. */
  method CreateTaskRun(repo: TaskRepository, k: Catalogs, memory: string, input: Input) returns (created: bool)
    modifies repo`tasks
    ensures created <==>
              Trim(memory) != "" && input.id !in old(repo.tasks) && repo.checks.shape(BuildTask(k, input).header)
    ensures repo.tasks == if created then old(repo.tasks)[input.id := BuildTask(k, input)] else old(repo.tasks)
  {
    if Trim(memory) == "" || input.id in repo.tasks {
      return false;
    }
    var run := BuildTask(k, input);
    if !repo.checks.shape(run.header) {
      return false;
    }
    BuiltIsNormalized(k, input);
    repo.tasks := repo.tasks[input.id := run.(header := Normalize(run.header))];
    created := true;
  }

  // --- What is required --------------------------------------------------------------------

  /** Everything that a matching pattern or skill asks for is required. */
  ghost predicate Covers(k: Catalogs, areas: seq<string>, required: Requirements) {
    && (forall p :: p in k.patterns && Overlap(p.riskAreas, areas) ==>
          && (forall x :: x in p.checks ==> x in required.checks)
          && (forall x :: x in p.reviews ==> x in required.reviews)
          && (forall x :: x in p.lessons ==> x in required.lessons))
    && required.skills.Some?
    && (forall s :: s in k.skills && Overlap(s.riskAreas, areas) ==>
          && (forall x :: x in s.checks ==> x in required.checks)
          && (forall x :: x in s.reviews ==> x in required.reviews)
          && s.name in required.skills.value
          && (s.e2e ==> required.e2e == Some(true)))
    && ("test_e2e" in required.checks ==> required.e2e == Some(true))
  }

  lemma RequirementsCover(k: Catalogs, areas: seq<string>)
    ensures Covers(k, areas, RequirementsFor(k, areas))
  {
    var required := RequirementsFor(k, areas);
    forall p | p in k.patterns && Overlap(p.riskAreas, areas)
      ensures forall x :: x in p.checks ==> x in required.checks
      ensures forall x :: x in p.reviews ==> x in required.reviews
      ensures forall x :: x in p.lessons ==> x in required.lessons
    {
      forall x | x in p.checks ensures x in required.checks { PatternGives(k, areas, p, x); }
      forall x | x in p.reviews ensures x in required.reviews { PatternGives(k, areas, p, x); }
      forall x | x in p.lessons ensures x in required.lessons { PatternGives(k, areas, p, x); }
    }
    forall s | s in k.skills && Overlap(s.riskAreas, areas)
      ensures forall x :: x in s.checks ==> x in required.checks
      ensures forall x :: x in s.reviews ==> x in required.reviews
      ensures s.name in required.skills.value
      ensures s.e2e ==> required.e2e == Some(true)
    {
      forall x | x in s.checks ensures x in required.checks { SkillGives(k, areas, s, x); }
      forall x | x in s.reviews ensures x in required.reviews { SkillGives(k, areas, s, x); }
      SkillGives(k, areas, s, s.name);
    }
  }

  lemma PatternGives(k: Catalogs, areas: seq<string>, p: RiskPattern, x: string)
    requires p in k.patterns && Overlap(p.riskAreas, areas)
    ensures x in p.checks ==> x in RequiredChecks(k, areas)
    ensures x in p.reviews ==> x in RequiredReviews(k, areas)
    ensures x in p.lessons ==> x in RequiredLessons(k, areas)
  {
    var areasOf := (p: RiskPattern) => p.riskAreas;
    CollectExact(k.patterns, areas, areasOf, (p: RiskPattern) => p.checks, x);
    CollectExact(k.patterns, areas, areasOf, (p: RiskPattern) => p.reviews, x);
    CollectExact(k.patterns, areas, areasOf, (p: RiskPattern) => p.lessons, x);
  }

  lemma SkillGives(k: Catalogs, areas: seq<string>, s: Skill, x: string)
    requires s in k.skills && Overlap(s.riskAreas, areas)
    ensures x in s.checks ==> x in RequiredChecks(k, areas)
    ensures x in s.reviews ==> x in RequiredReviews(k, areas)
    ensures x == s.name ==> x in RequiredSkills(k, areas)
  {
    var areasOf := (s: Skill) => s.riskAreas;
    CollectExact(k.skills, areas, areasOf, (s: Skill) => s.checks, x);
    CollectExact(k.skills, areas, areasOf, (s: Skill) => s.reviews, x);
    CollectExact(k.skills, areas, areasOf, (s: Skill) => [s.name], x);
  }

  ghost predicate PatternAsks(k: Catalogs, areas: seq<string>, x: string, gives: RiskPattern -> seq<string>) {
    exists p :: p in k.patterns && Overlap(p.riskAreas, areas) && x in gives(p)
  }

  ghost predicate SkillAsks(k: Catalogs, areas: seq<string>, x: string, gives: Skill -> seq<string>) {
    exists s :: s in k.skills && Overlap(s.riskAreas, areas) && x in gives(s)
  }

  /** What is required is exactly what the template, a matching pattern or a matching skill asks for. */
  lemma RequiredExactly(k: Catalogs, areas: seq<string>, x: string)
    ensures var required := RequirementsFor(k, areas);
            && (x in required.checks <==>
                  || x in k.template.header.required.checks
                  || PatternAsks(k, areas, x, (p: RiskPattern) => p.checks)
                  || SkillAsks(k, areas, x, (s: Skill) => s.checks))
            && (x in required.reviews <==>
                  || x in k.template.header.required.reviews
                  || PatternAsks(k, areas, x, (p: RiskPattern) => p.reviews)
                  || SkillAsks(k, areas, x, (s: Skill) => s.reviews))
            && (x in required.lessons <==> PatternAsks(k, areas, x, (p: RiskPattern) => p.lessons))
            && required.skills.Some?
            && (x in required.skills.value <==> SkillAsks(k, areas, x, (s: Skill) => [s.name]))
    ensures RequirementsFor(k, areas).e2e ==
            if "test_e2e" in RequirementsFor(k, areas).checks
               || (exists s :: s in k.skills && Overlap(s.riskAreas, areas) && s.e2e)
            then Some(true) else k.template.header.required.e2e
  {
    var patternAreas, skillAreas := (p: RiskPattern) => p.riskAreas, (s: Skill) => s.riskAreas;
    CollectExact(k.patterns, areas, patternAreas, (p: RiskPattern) => p.checks, x);
    CollectExact(k.patterns, areas, patternAreas, (p: RiskPattern) => p.reviews, x);
    CollectExact(k.patterns, areas, patternAreas, (p: RiskPattern) => p.lessons, x);
    CollectExact(k.skills, areas, skillAreas, (s: Skill) => s.checks, x);
    CollectExact(k.skills, areas, skillAreas, (s: Skill) => s.reviews, x);
    CollectExact(k.skills, areas, skillAreas, (s: Skill) => [s.name], x);
  }

  lemma CollectGrows<T>(
    items: seq<T>, areas: seq<string>, areas': seq<string>, areasOf: T -> seq<string>, gives: T -> seq<string>,
    x: string)
    requires forall a :: a in areas ==> a in areas'
    requires x in Collect(items, areas, areasOf, gives)
    ensures x in Collect(items, areas', areasOf, gives)
  {
    CollectExact(items, areas, areasOf, gives, x);
    CollectExact(items, areas', areasOf, gives, x);
  }

  /** Naming more risk areas can only add requirements. */
  lemma MoreAreasMoreRequirements(k: Catalogs, areas: seq<string>, areas': seq<string>, x: string)
    requires forall a :: a in areas ==> a in areas'
    ensures x in RequiredChecks(k, areas) ==> x in RequiredChecks(k, areas')
    ensures x in RequiredReviews(k, areas) ==> x in RequiredReviews(k, areas')
    ensures x in RequiredLessons(k, areas) ==> x in RequiredLessons(k, areas')
    ensures x in RequiredSkills(k, areas) ==> x in RequiredSkills(k, areas')
    ensures RequiredE2e(k, areas) == Some(true) ==> RequiredE2e(k, areas') == Some(true)
  {
    ChecksGrow(k, areas, areas', "test_e2e");
    ChecksGrow(k, areas, areas', x);
    ReviewsGrow(k, areas, areas', x);
    var patternAreas := (p: RiskPattern) => p.riskAreas;
    if x in RequiredLessons(k, areas) {
      CollectGrows(k.patterns, areas, areas', patternAreas, (p: RiskPattern) => p.lessons, x);
    }
    if x in RequiredSkills(k, areas) {
      CollectGrows(k.skills, areas, areas', (s: Skill) => s.riskAreas, (s: Skill) => [s.name], x);
    }
  }

  lemma ChecksGrow(k: Catalogs, areas: seq<string>, areas': seq<string>, x: string)
    requires forall a :: a in areas ==> a in areas'
    ensures x in RequiredChecks(k, areas) ==> x in RequiredChecks(k, areas')
  {
    var patternAreas, skillAreas := (p: RiskPattern) => p.riskAreas, (s: Skill) => s.riskAreas;
    if x in Collect(k.patterns, areas, patternAreas, (p: RiskPattern) => p.checks) {
      CollectGrows(k.patterns, areas, areas', patternAreas, (p: RiskPattern) => p.checks, x);
    }
    if x in Collect(k.skills, areas, skillAreas, (s: Skill) => s.checks) {
      CollectGrows(k.skills, areas, areas', skillAreas, (s: Skill) => s.checks, x);
    }
  }

  lemma ReviewsGrow(k: Catalogs, areas: seq<string>, areas': seq<string>, x: string)
    requires forall a :: a in areas ==> a in areas'
    ensures x in RequiredReviews(k, areas) ==> x in RequiredReviews(k, areas')
  {
    var patternAreas, skillAreas := (p: RiskPattern) => p.riskAreas, (s: Skill) => s.riskAreas;
    if x in Collect(k.patterns, areas, patternAreas, (p: RiskPattern) => p.reviews) {
      CollectGrows(k.patterns, areas, areas', patternAreas, (p: RiskPattern) => p.reviews, x);
    }
    if x in Collect(k.skills, areas, skillAreas, (s: Skill) => s.reviews) {
      CollectGrows(k.skills, areas, areas', skillAreas, (s: Skill) => s.reviews, x);
    }
  }

  // --- What a done task has shown --------------------------------------------------------------

  lemma SameTaskTransitive(a: TaskRun, b: TaskRun, c: TaskRun)
    requires SameTask(a, b) && SameTask(b, c)
    ensures SameTask(a, c)
  {
  }

  lemma {:induction false} SameTaskAlways(k: Checks, es: seq<Event>, ss: seq<State>, i: nat, ref: string)
    requires Coherent(k) && IsRun(k, es, ss) && i < |ss| && ref in ss[0].files.tasks
    ensures ref in ss[i].files.tasks && SameTask(ss[i].files.tasks[ref], ss[0].files.tasks[ref])
  {
    if i > 0 {
      SameTaskAlways(k, es, ss, i - 1, ref);
      RunFollows(k, es, ss, i - 1);
      SameTaskTransitive(ss[i].files.tasks[ref], ss[i - 1].files.tasks[ref], ss[0].files.tasks[ref]);
    }
  }

  /** The snapshot of a done task was accepted for the requirements the task was created with. */
  lemma DoneWasAccepted(k: Checks, es: seq<Event>, ss: seq<State>, i: nat, ref: string)
    requires Coherent(k) && IsRun(k, es, ss) && i < |ss| && ref in ss[0].files.tasks
    requires ref in ss[i].files.tasks && ss[i].files.tasks[ref].status.Done?
    ensures Settled(k, ss[i].files, ref)
    ensures k.accepts(ss[0].files.tasks[ref].header.required, ss[i].files.snapshots[ref].evidence)
  {
    InvReached(k, es, ss, i);
    SameTaskAlways(k, es, ss, i, ref);
    SameTaskAgrees(k, ss[i].files.tasks[ref], ss[0].files.tasks[ref]);
    assert StatusInv(k, ss[i].files, ref);
    assert SnapshotInv(k, ss[i].files, ref);
  }

  /** Everything a matching pattern or skill asks for is shown in the evidence. */
  ghost predicate Shown(k: Catalogs, areas: seq<string>, evidence: Record) {
    var checks, reviews := FieldsOf(evidence, "checks"), FieldsOf(evidence, "reviews");
    && (forall p :: p in k.patterns && Overlap(p.riskAreas, areas) ==>
          && AllPassed(p.checks, checks) && AllPassed(p.reviews, reviews)
          && forall x :: x in p.lessons ==> x in StringsIn(Get(evidence, "prior_lessons_reviewed")))
    && (forall s :: s in k.skills && Overlap(s.riskAreas, areas) ==>
          && AllPassed(s.checks, checks) && AllPassed(s.reviews, reviews)
          && s.name in StringsIn(Get(evidence, "skills_loaded"))
          && (s.e2e ==> AllPassed(["test_e2e"], checks)))
  }

  /** Everything required has its place in the evidence. */
  ghost predicate Answers(required: Requirements, evidence: Record) {
    && AllPassed(required.checks, FieldsOf(evidence, "checks"))
    && AllPassed(required.reviews, FieldsOf(evidence, "reviews"))
    && (forall x :: x in required.lessons ==> x in StringsIn(Get(evidence, "prior_lessons_reviewed")))
    && (required.skills.Some? ==>
          forall x :: x in required.skills.value ==> x in StringsIn(Get(evidence, "skills_loaded")))
    && (required.e2e == Some(true) ==> AllPassed(["test_e2e"], FieldsOf(evidence, "checks")))
  }

  lemma PassedAnswers(required: Requirements, evidence: Record)
    requires EvidenceMatches(required, evidence) && StatusOf(evidence) == Some(Passed)
    ensures Answers(required, evidence)
  {
  }

  lemma AnswersShow(k: Catalogs, areas: seq<string>, required: Requirements, evidence: Record)
    requires Covers(k, areas, required) && Answers(required, evidence)
    ensures Shown(k, areas, evidence)
  {
  }

  /**
   * A task created for its risk areas and later closed as done has a snapshot in which
   * everything those areas call for has passed, however many closers ran and crashed.
   */
  lemma DoneTaskShowsRequirements(
    tables: Tables, contract: seq<string>, lessonIds: set<string>, es: seq<Event>, ss: seq<State>, i: nat,
    k: Catalogs, input: Input)
    requires IsRun(SourceChecks(tables, contract, lessonIds), es, ss) && i < |ss|
    requires input.id in ss[0].files.tasks && ss[0].files.tasks[input.id] == BuildTask(k, input)
    requires input.id in ss[i].files.tasks && ss[i].files.tasks[input.id].status.Done?
    ensures input.id in ss[i].files.snapshots
    ensures StatusOf(ss[i].files.snapshots[input.id].evidence) == Some(Passed)
    ensures Shown(k, Dedupe(input.riskAreas), ss[i].files.snapshots[input.id].evidence)
  {
    var checks := SourceChecks(tables, contract, lessonIds);
    SourceChecksCoherent(tables, contract, lessonIds);
    DoneWasAccepted(checks, es, ss, i, input.id);
    var areas := Dedupe(input.riskAreas);
    RequirementsCover(k, areas);
    PassedAnswers(RequirementsFor(k, areas), ss[i].files.snapshots[input.id].evidence);
    AnswersShow(k, areas, RequirementsFor(k, areas), ss[i].files.snapshots[input.id].evidence);
  }
}

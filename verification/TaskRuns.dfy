/**
 * Task runs and the evidence that closes them (scripts/agentic/task-runtime.ts).
 *
 * Evidence is whatever YAML holds, so it is a JSON value; the rest of a task run is
 * typed.  The allow-lists of the source are the fields of `Tables`: everything is proved
 * for any choice of them.
 */
module TaskRuns {
  import opened Wrappers
  import opened Text

  // --- YAML values -----------------------------------------------------------------

  datatype Json =
    | Null
    | Bool(b: bool)
    | Number(text: string)
    | Str(s: string)
    | Arr(items: seq<Json>)
    | Obj(fields: map<string, Json>)

  type Record = map<string, Json>

  function Get(r: Record, field: string): Option<Json> {
    if field in r then Some(r[field]) else None
  }

  function EnsureRecord(value: Json): Record {
    if value.Obj? then value.fields else map[]
  }

  predicate NonEmpty(value: Json) {
    value.Str? && Trim(value.s) != ""
  }

  /** String(value); arrays join their elements, with nothing for null. */
  function JsString(value: Json): string {
    match value
    case Null => "null"
    case Bool(b) => if b then "true" else "false"
    case Number(text) => text
    case Str(s) => s
    case Arr(items) => JsJoin(items)
    case Obj(_) => "[object Object]"
  }

  function JsJoin(items: seq<Json>): string {
    if items == [] then ""
    else
      (if items[0].Null? then "" else JsString(items[0]))
      + (if |items| == 1 then "" else "," + JsJoin(items[1..]))
  }

  predicate SatisfiesRequirement(value: Option<Json>) {
    && value.Some?
    && match value.value
       case Arr(items) => items != []
       case Str(s) => Trim(s) != ""
       case Obj(fields) => fields != map[]
       case Null => false
       case _ => true
  }

  /** What counts as no answer: nothing, null, an empty array or object, and white space. */
  lemma SatisfiesExactly(value: Option<Json>)
    ensures !SatisfiesRequirement(value) <==>
              || value == None || value == Some(Null) || value == Some(Arr([])) || value == Some(Obj(map[]))
              || (value.Some? && value.value.Str? && AllSpace(value.value.s))
  {
    if value.Some? && value.value.Str? {
      BlankExactly(value.value.s);
    }
  }

  lemma BlankExactly(s: string)
    ensures Trim(s) == "" <==> AllSpace(s)
  {
    var before, after := TrimExactly(s);
    assert s == before + Trim(s) + after;
    if Trim(s) != "" {
      assert s[|before|] == Trim(s)[0] && s[|before|] in s;
    }
  }

  /** An array reads as its elements with commas between them, and null as nothing. */
  lemma ArrayOfOne(x: Json)
    ensures JsString(Arr([])) == "" && JsString(Arr([Null])) == ""
    ensures x != Null ==> JsString(Arr([x])) == JsString(x)
  {
  }

  lemma {:induction false} ArraysJoin(a: seq<Json>, b: seq<Json>)
    requires a != [] && b != []
    ensures JsString(Arr(a + b)) == JsString(Arr(a)) + "," + JsString(Arr(b))
  {
    JoinAppends(a, b);
  }

  function Shown(x: Json): string {
    if x.Null? then "" else JsString(x)
  }

  lemma JoinStep(x: Json, rest: seq<Json>)
    ensures JsJoin([x] + rest) == Shown(x) + if rest == [] then "" else "," + JsJoin(rest)
  {
    assert ([x] + rest)[1..] == rest;
  }

  lemma Regroup(head: string, middle: string, end: string)
    ensures head + ("," + (middle + "," + end)) == (head + ("," + middle)) + "," + end
    ensures head + "" == head
  {
  }

  lemma {:induction false} JoinAppends(a: seq<Json>, b: seq<Json>)
    requires a != [] && b != []
    ensures JsJoin(a + b) == JsJoin(a) + "," + JsJoin(b)
  {
    var x, rest := a[0], a[1..];
    assert a == [x] + rest && a + b == [x] + (rest + b);
    JoinStep(x, rest);
    JoinStep(x, rest + b);
    Regroup(Shown(x), JsJoin(rest), JsJoin(b));
    if rest != [] {
      JoinAppends(rest, b);
    } else {
      assert rest + b == b;
    }
  }

  predicate IsStringArray(value: Option<Json>) {
    value.Some? && value.value.Arr? && forall item :: item in value.value.items ==> NonEmpty(item)
  }

  predicate IsStatusMap(value: Option<Json>) {
    && value.Some? && value.value.Obj? && value.value.fields != map[]
    && forall k :: k in value.value.fields ==> JsString(value.value.fields[k]) in ["passed", "failed", "skipped"]
  }

  function StringsIn(value: Option<Json>): set<string> {
    if value.Some? && value.value.Arr? then set item | item in value.value.items && item.Str? :: item.s else {}
  }

  // --- Task runs -----------------------------------------------------------------------

  datatype TaskStatus = Todo | InProgress | Done | Blocked

  datatype EvidenceStatus = Passed | Failed | EvidenceBlocked

  function ToTaskStatus(status: EvidenceStatus): TaskStatus {
    if status.Passed? then Done else Blocked
  }

  datatype RequestContext = RequestContext(
    original: Option<string>,
    normalized: Option<string>,
    mode: Option<string>,
    missing: Option<seq<string>>,
    brief: Option<seq<string>>)

  datatype Requirements = Requirements(
    checks: seq<string>,
    reviews: seq<string>,
    lessons: seq<string>,
    skills: Option<seq<string>>,
    e2e: Option<bool>)

  /** The part of a task run that says what the task is. */
  datatype Header = Header(
    id: string,
    title: string,
    kind: string,
    ownerAgent: string,
    preferredProvider: Option<string>,
    context: Option<RequestContext>,
    riskAreas: seq<string>,
    dependencies: seq<string>,
    required: Requirements)

  datatype TaskRun = TaskRun(header: Header, status: TaskStatus, evidence: Json)

  datatype Tables = Tables(
    riskAreas: set<string>,
    checks: set<string>,
    reviews: set<string>,
    ownerAgents: set<string>,
    providers: set<string>,
    modes: set<string>)

  function Dedupe(values: seq<string>): (r: seq<string>)
    ensures forall x :: x in r <==> x in values
    ensures forall i, j :: 0 <= i < j < |r| ==> r[i] != r[j]
  {
    if values == [] then []
    else
      var front := Dedupe(values[..|values| - 1]);
      var last := values[|values| - 1];
      assert values == values[..|values| - 1] + [last];
      if last in front then front else front + [last]
  }

  /** Elements keep the order of their first appearance: more values only add to the end. */
  lemma {:induction false} DedupeKeepsOrder(values: seq<string>, n: nat)
    requires n <= |values|
    ensures Dedupe(values[..n]) <= Dedupe(values)
  {
    if n < |values| {
      var front := values[..|values| - 1];
      assert front[..n] == values[..n];
      DedupeKeepsOrder(front, n);
    } else {
      assert values[..n] == values;
    }
  }

  lemma {:induction false} DedupeDistinct(values: seq<string>)
    requires forall i, j :: 0 <= i < j < |values| ==> values[i] != values[j]
    ensures Dedupe(values) == values
  {
    if values != [] {
      DedupeDistinct(values[..|values| - 1]);
    }
  }

  const DEFAULT_EXECUTION_BRIEF := [
    "Preserve the original request text.",
    "Normalize only when it improves execution quality or surfaces missing constraints."
  ]

  function GetOr<T>(o: Option<T>, default: T): T {
    if o.Some? then o.value else default
  }

  function GetRequestContext(task: Header): RequestContext {
    var c := GetOr(task.context, RequestContext(None, None, None, None, None));
    RequestContext(
      Some(GetOr(c.original, task.title)),
      Some(GetOr(c.normalized, GetOr(c.original, task.title))),
      Some(GetOr(c.mode, "none")),
      Some(Dedupe(GetOr(c.missing, []))),
      Some(Dedupe(GetOr(c.brief, DEFAULT_EXECUTION_BRIEF))))
  }

  /** What validateTaskRunShape does to the task before checking it. */
  function Normalize(task: Header): Header {
    task.(context := Some(GetRequestContext(task)))
  }

  /** Filling in the request context once is enough. */
  lemma NormalizeTwice(task: Header)
    ensures Normalize(Normalize(task)) == Normalize(task)
  {
    var c := GetRequestContext(task);
    DedupeDistinct(c.missing.value);
    DedupeDistinct(c.brief.value);
  }

  /** What is given stays; the title stands in for a request, and the request for its normal form. */
  lemma ContextFilledIn(task: Header)
    ensures var c, given := GetRequestContext(task), task.context;
            && c.original
               == (if given.Some? && given.value.original.Some? then given.value.original else Some(task.title))
            && c.normalized
               == (if given.Some? && given.value.normalized.Some? then given.value.normalized else c.original)
            && c.mode == (if given.Some? && given.value.mode.Some? then given.value.mode else Some("none"))
    ensures var c, given := GetRequestContext(task), task.context;
            && c.missing.Some? && c.brief.Some?
            && (given.Some? && given.value.missing.Some? ==>
                  forall x :: x in c.missing.value <==> x in given.value.missing.value)
            && (!(given.Some? && given.value.missing.Some?) ==> c.missing.value == [])
            && (given.Some? && given.value.brief.Some? ==>
                  forall x :: x in c.brief.value <==> x in given.value.brief.value)
            && (!(given.Some? && given.value.brief.Some?) ==> c.brief.value == DEFAULT_EXECUTION_BRIEF)
  {
    DedupeDistinct(DEFAULT_EXECUTION_BRIEF);
  }

  predicate IsAsciiAlnum(c: char) {
    'A' <= c <= 'Z' || 'a' <= c <= 'z' || IsDigit(c)
  }

  /** ^[A-Za-z0-9]+(?:-[A-Za-z0-9]+)*$ */
  predicate ValidId(id: string) {
    && id != "" && id[0] != '-' && id[|id| - 1] != '-'
    && (forall c :: c in id ==> IsAsciiAlnum(c) || c == '-')
    && (forall i :: 0 < i < |id| ==> !(id[i - 1] == '-' && id[i] == '-'))
  }

  predicate IsWord(s: string) {
    s != "" && forall c :: c in s ==> IsAsciiAlnum(c)
  }

  /** The words with a hyphen between each two. */
  function Hyphenated(words: seq<string>): string
    requires words != []
  {
    if |words| == 1 then words[0] else words[0] + ("-" + Hyphenated(words[1..]))
  }

  function WordLength(s: string): (n: nat)
    ensures n <= |s| && forall i :: 0 <= i < n ==> IsAsciiAlnum(s[i])
    ensures n < |s| ==> !IsAsciiAlnum(s[n])
  {
    if s != "" && IsAsciiAlnum(s[0]) then 1 + WordLength(s[1..]) else 0
  }

  lemma IdTail(id: string, n: nat)
    requires ValidId(id) && n < |id| && id[n] == '-'
    ensures n + 1 < |id| && ValidId(id[n + 1..])
  {
    var rest := id[n + 1..];
    assert !(id[n] == '-' && id[n + 1] == '-');
    forall i | 0 < i < |rest| ensures !(rest[i - 1] == '-' && rest[i] == '-') {
      assert rest[i - 1] == id[n + i] && rest[i] == id[n + 1 + i];
    }
  }

  lemma {:induction false} IdWords(id: string) returns (words: seq<string>)
    requires ValidId(id)
    ensures words != [] && (forall w :: w in words ==> IsWord(w)) && id == Hyphenated(words)
    decreases |id|
  {
    var n := WordLength(id);
    assert id[0] in id;
    if n == |id| {
      words := [id];
    } else {
      assert id[n] in id && id[n] == '-';
      IdTail(id, n);
      var rest := IdWords(id[n + 1..]);
      words := [id[..n]] + rest;
      assert words[1..] == rest;
      assert id == id[..n] + ("-" + id[n + 1..]);
    }
  }

  lemma ValidJoined(a: string, b: string)
    requires IsWord(a) && ValidId(b)
    ensures ValidId(a + ("-" + b))
  {
    var tail := "-" + b;
    var id := a + tail;
    assert forall i :: 0 < i < |tail| ==> tail[i] == b[i - 1];
    assert forall i :: 0 <= i < |id| ==> id[i] == if i < |a| then a[i] else tail[i - |a|];
    assert forall i :: 0 <= i < |a| ==> a[i] in a;
  }

  lemma {:induction false} WordsMakeId(words: seq<string>)
    requires words != [] && forall w :: w in words ==> IsWord(w)
    ensures ValidId(Hyphenated(words))
  {
    assert words[0] in words;
    if |words| == 1 {
      assert forall i :: 0 <= i < |words[0]| ==> words[0][i] in words[0];
    } else {
      WordsMakeId(words[1..]);
      ValidJoined(words[0], Hyphenated(words[1..]));
    }
  }

  /** Task ids are exactly alphanumeric words joined by hyphens. */
  lemma ValidIdExactly(id: string)
    ensures ValidId(id) <==>
              exists words :: words != [] && (forall w :: w in words ==> IsWord(w)) && id == Hyphenated(words)
  {
    if ValidId(id) {
      var words := IdWords(id);
    }
    if words :| words != [] && (forall w :: w in words ==> IsWord(w)) && id == Hyphenated(words) {
      WordsMakeId(words);
    }
  }

  /** validateTaskRunShape does not throw; the context counts as it is filled in. */
  predicate ValidShape(tables: Tables, task: Header) {
    var c := GetRequestContext(task);
    && ValidId(task.id)
    && (forall d :: d in task.dependencies ==> ValidId(d))
    && (forall a :: a in task.riskAreas ==> a in tables.riskAreas)
    && (forall x :: x in task.required.checks ==> x in tables.checks)
    && task.ownerAgent in tables.ownerAgents
    && (task.preferredProvider.Some? ==> task.preferredProvider.value in tables.providers)
    && (task.preferredProvider == Some("gemini") ==> task.kind == "research")
    && (forall x :: x in task.required.reviews ==> x in tables.reviews)
    && (task.required.e2e == Some(true) ==> "test_e2e" in task.required.checks)
    && c.mode.value in tables.modes
    && Trim(c.original.value) != ""
    && Trim(c.normalized.value) != ""
    && (task.required.skills.Some? ==> forall x :: x in task.required.skills.value ==> Trim(x) != "")
  }

  // --- Evidence ----------------------------------------------------------------------------

  const STRING_ARRAY_FIELDS := [
    "prior_lessons_reviewed", "files_changed", "commands_run", "assumptions_verified", "mistakes_observed",
    "lessons_captured", "new_or_updated_rules", "future_checks_required", "residual_risks"
  ]

  function StatusOf(evidence: Record): Option<EvidenceStatus> {
    match Get(evidence, "status")
    case Some(Str(s)) =>
      if s == "passed" then Some(Passed)
      else if s == "failed" then Some(Failed)
      else if s == "blocked" then Some(EvidenceBlocked)
      else None
    case _ => None
  }

  function FieldsOf(evidence: Record, field: string): Record {
    if field in evidence && evidence[field].Obj? then evidence[field].fields else map[]
  }

  predicate AllPassed(names: seq<string>, statuses: Record) {
    forall x :: x in names ==> x in statuses && statuses[x] == Str("passed")
  }

  /** The fields that all evidence has. */
  predicate EvidenceShaped(evidence: Record) {
    && (forall f :: f in STRING_ARRAY_FIELDS ==> IsStringArray(Get(evidence, f)))
    && StringsIn(Get(evidence, "commands_run")) != {} && StringsIn(Get(evidence, "files_changed")) != {}
    && IsStatusMap(Get(evidence, "checks")) && IsStatusMap(Get(evidence, "reviews"))
  }

  predicate ChecksAnswered(required: Requirements, evidence: Record) {
    var checks, reviews := FieldsOf(evidence, "checks"), FieldsOf(evidence, "reviews");
    && (forall x :: x in required.checks ==> x in checks)
    && (forall x :: x in required.reviews ==> x in reviews)
    && (StatusOf(evidence) == Some(Passed) ==>
          AllPassed(required.checks, checks) && AllPassed(required.reviews, reviews))
    && (required.e2e == Some(true) ==> AllPassed(["test_e2e"], checks))
  }

  predicate RecordsAnswered(required: Requirements, evidence: Record) {
    && (forall x :: x in required.lessons ==> x in StringsIn(Get(evidence, "prior_lessons_reviewed")))
    && (required.skills.Some? && required.skills.value != [] ==>
          && IsStringArray(Get(evidence, "skills_loaded"))
          && forall x :: x in required.skills.value ==> x in StringsIn(Get(evidence, "skills_loaded")))
    && (StatusOf(evidence) == Some(Failed) || StatusOf(evidence) == Some(EvidenceBlocked) ==>
          SatisfiesRequirement(Get(evidence, "blockers")))
  }

  /** assertEvidenceMatchesTask does not throw. */
  predicate EvidenceMatches(required: Requirements, evidence: Record) {
    EvidenceShaped(evidence) && ChecksAnswered(required, evidence) && RecordsAnswered(required, evidence)
  }

  /** The fields of the completion contract that are checked elsewhere. */
  const SHAPED_FIELDS := STRING_ARRAY_FIELDS + ["checks", "reviews"]

  /** The evidence part of closeTaskRun does not throw. */
  predicate Acceptable(contract: seq<string>, lessonIds: set<string>, required: Requirements, evidence: Record) {
    && (forall f :: f in contract && f !in SHAPED_FIELDS ==> SatisfiesRequirement(Get(evidence, f)))
    && StatusOf(evidence).Some?
    && EvidenceMatches(required, evidence)
    && StringsIn(Get(evidence, "lessons_captured")) <= lessonIds
  }

  // --- Evidence as its fields are meant -------------------------------------------------

  /** Evidence whose fields have their intended types. */
  datatype Form = Form(
    status: EvidenceStatus,
    lists: map<string, seq<string>>,
    checks: map<string, string>,
    reviews: map<string, string>,
    skills: seq<string>,
    blockers: seq<string>)

  function Strs(items: seq<string>): Json {
    Arr(seq(|items|, i requires 0 <= i < |items| => Str(items[i])))
  }

  function Statuses(statuses: map<string, string>): Json {
    Obj(map x | x in statuses :: Str(statuses[x]))
  }

  function StatusName(status: EvidenceStatus): string {
    match status case Passed => "passed" case Failed => "failed" case EvidenceBlocked => "blocked"
  }

  const LISTS := {
    "prior_lessons_reviewed", "files_changed", "commands_run", "assumptions_verified", "mistakes_observed",
    "lessons_captured", "new_or_updated_rules", "future_checks_required", "residual_risks"
  }

  /** The record holds the form. */
  ghost predicate Holds(e: Record, form: Form) {
    && Get(e, "status") == Some(Str(StatusName(form.status)))
    && form.lists.Keys == LISTS && (forall f :: f in LISTS ==> Get(e, f) == Some(Strs(form.lists[f])))
    && Get(e, "checks") == Some(Statuses(form.checks)) && Get(e, "reviews") == Some(Statuses(form.reviews))
    && Get(e, "skills_loaded") == Some(Strs(form.skills)) && Get(e, "blockers") == Some(Strs(form.blockers))
  }

  predicate NoBlanks(items: seq<string>) {
    forall x :: x in items ==> Trim(x) != ""
  }

  predicate ProperStatuses(statuses: map<string, string>) {
    statuses != map[] && forall x :: x in statuses ==> statuses[x] in ["passed", "failed", "skipped"]
  }

  predicate AllPass(names: seq<string>, statuses: map<string, string>) {
    forall x :: x in names ==> x in statuses && statuses[x] == "passed"
  }

  ghost predicate WellFilled(form: Form) {
    && form.lists.Keys == LISTS && (forall f :: f in LISTS ==> NoBlanks(form.lists[f]))
    && form.lists["commands_run"] != [] && form.lists["files_changed"] != []
    && ProperStatuses(form.checks) && ProperStatuses(form.reviews)
  }

  ghost predicate ChecksSuffice(required: Requirements, form: Form) {
    && (forall x :: x in required.checks ==> x in form.checks)
    && (forall x :: x in required.reviews ==> x in form.reviews)
    && (form.status == Passed ==> AllPass(required.checks, form.checks) && AllPass(required.reviews, form.reviews))
    && (required.e2e == Some(true) ==> AllPass(["test_e2e"], form.checks))
  }

  ghost predicate RecordsSuffice(required: Requirements, form: Form)
    requires form.lists.Keys == LISTS
  {
    && (forall x :: x in required.lessons ==> x in form.lists["prior_lessons_reviewed"])
    && (required.skills.Some? && required.skills.value != [] ==>
          NoBlanks(form.skills) && forall x :: x in required.skills.value ==> x in form.skills)
    && (form.status != Passed ==> form.blockers != [])
  }

  /** What closing a task asks of its evidence. */
  ghost predicate Suffices(required: Requirements, form: Form) {
    WellFilled(form) && ChecksSuffice(required, form) && RecordsSuffice(required, form)
  }

  lemma StrsMeaning(items: seq<string>)
    ensures IsStringArray(Some(Strs(items))) <==> NoBlanks(items)
    ensures forall x :: x in StringsIn(Some(Strs(items))) <==> x in items
    ensures SatisfiesRequirement(Some(Strs(items))) <==> items != []
  {
    var values := Strs(items).items;
    assert forall i :: 0 <= i < |items| ==> values[i] == Str(items[i]) && values[i] in values;
    if IsStringArray(Some(Strs(items))) {
      forall x | x in items ensures Trim(x) != "" {
        var i :| 0 <= i < |items| && items[i] == x;
        assert NonEmpty(values[i]);
      }
    }
  }

  lemma StatusesMeaning(statuses: map<string, string>)
    ensures IsStatusMap(Some(Statuses(statuses))) <==> ProperStatuses(statuses)
  {
    var fields := Statuses(statuses).fields;
    assert fields.Keys == statuses.Keys;
    assert fields == map[] <==> statuses == map[];
    forall x | x in statuses ensures JsString(fields[x]) == statuses[x] {
    }
  }

  lemma StatusMeaning(e: Record, form: Form)
    requires Holds(e, form)
    ensures StatusOf(e) == Some(form.status)
  {
  }

  lemma FieldsMeaning(e: Record, field: string, statuses: map<string, string>)
    requires Get(e, field) == Some(Statuses(statuses))
    ensures var fields := FieldsOf(e, field);
            && fields.Keys == statuses.Keys && (forall x :: x in statuses ==> fields[x] == Str(statuses[x]))
    ensures forall names :: AllPassed(names, FieldsOf(e, field)) <==> AllPass(names, statuses)
  {
    var fields := FieldsOf(e, field);
    assert fields.Keys == statuses.Keys;
    forall names ensures AllPassed(names, fields) <==> AllPass(names, statuses) {
      forall x | x in statuses ensures fields[x] == Str("passed") <==> statuses[x] == "passed" {
      }
    }
  }

  lemma ListsMeaning(e: Record, form: Form)
    requires Holds(e, form)
    ensures (forall f :: f in STRING_ARRAY_FIELDS ==> IsStringArray(Get(e, f)))
       <==> (forall f :: f in LISTS ==> NoBlanks(form.lists[f]))
  {
    forall f ensures f in STRING_ARRAY_FIELDS <==> f in LISTS {
    }
    forall f | f in LISTS ensures IsStringArray(Get(e, f)) <==> NoBlanks(form.lists[f]) {
      StrsMeaning(form.lists[f]);
    }
  }

  lemma ShapeMeaning(e: Record, form: Form)
    requires Holds(e, form)
    ensures EvidenceShaped(e) <==> WellFilled(form)
  {
    ListsMeaning(e, form);
    StatusesMeaning(form.checks);
    StatusesMeaning(form.reviews);
    NothingIn(form.lists["commands_run"]);
    NothingIn(form.lists["files_changed"]);
  }

  lemma ChecksMeaning(required: Requirements, e: Record, form: Form)
    requires Holds(e, form)
    ensures ChecksAnswered(required, e) <==> ChecksSuffice(required, form)
  {
    StatusMeaning(e, form);
    FieldsMeaning(e, "checks", form.checks);
    FieldsMeaning(e, "reviews", form.reviews);
  }

  lemma RecordsMeaning(required: Requirements, e: Record, form: Form)
    requires Holds(e, form)
    ensures RecordsAnswered(required, e) <==> RecordsSuffice(required, form)
  {
    StatusMeaning(e, form);
    StrsMeaning(form.skills);
    StrsMeaning(form.blockers);
    StrsMeaning(form.lists["prior_lessons_reviewed"]);
  }

  /** assertEvidenceMatchesTask passes exactly the evidence that answers the task's requirements. */
  lemma EvidenceMatchesExactly(required: Requirements, e: Record, form: Form)
    requires Holds(e, form)
    ensures EvidenceMatches(required, e) <==> Suffices(required, form)
  {
    ShapeMeaning(e, form);
    ChecksMeaning(required, e, form);
    RecordsMeaning(required, e, form);
  }

  lemma NothingIn(items: seq<string>)
    ensures StringsIn(Some(Strs(items))) == {} <==> items == []
  {
    StrsMeaning(items);
    if items != [] {
      assert items[0] in StringsIn(Some(Strs(items)));
    }
  }

  lemma ShapedFields()
    ensures forall f :: f in SHAPED_FIELDS <==> f in LISTS || f == "checks" || f == "reviews"
  {
  }

  /** The evidence closes the task exactly when it answers, is complete by the contract, and cites known lessons. */
  lemma AcceptableExactly(
    contract: seq<string>, lessonIds: set<string>, required: Requirements, e: Record, form: Form)
    requires Holds(e, form)
    ensures Acceptable(contract, lessonIds, required, e) <==>
              && Suffices(required, form)
              && (forall x :: x in form.lists["lessons_captured"] ==> x in lessonIds)
              && (forall f :: f in contract && f !in LISTS && f != "checks" && f != "reviews" ==>
                    SatisfiesRequirement(Get(e, f)))
  {
    StatusMeaning(e, form);
    EvidenceMatchesExactly(required, e, form);
    StrsMeaning(form.lists["lessons_captured"]);
    ShapedFields();
  }
}

/**
 * Message handling with retries and a dead-letter topic (packages/events/src/handler.ts).
 *
 * A partition is a log with the consumer's position and the committed offset.  The
 * consumer hands the message at its position to `eachMessage` and moves on only when
 * that resolves; after a failure or a restart it reads again from some offset that is
 * not before the committed one.  What the handler and the producer do is decided by
 * the environment, step by step.
 */
module MessageRetry {
  import opened Wrappers
  import opened HeaderNumbers

  /** A message value, by what JSON.parse makes of it. */
  datatype Body =
    | Missing                 // null
    | Empty                   // the empty string, which only the catch block can read
    | Unreadable(text: string) // malformed JSON, or JSON null
    | Event(text: string)

  /** `id` names the published message that a message goes back to. */
  datatype Message = Message(id: nat, key: Option<string>, value: Body, headers: map<string, string>)

  datatype Config = Config(topic: string, maxRetries: int, deadLetterTopic: Option<string>)

  const RETRY_COUNT := "x-retry-count"
  const REASON := "x-dead-letter-reason"
  const ORIGINAL_TOPIC := "x-original-topic"
  const TIMESTAMP := "x-error-timestamp"

  datatype State = State(
    log: seq<Message>,
    position: nat,
    committed: nat,
    deadLetters: seq<Message>,
    // what has happened, for the theorems
    published: map<nat, Message>,
    handled: set<nat>,
    dropped: set<nat>,
    calls: multiset<nat>)

  const INITIAL := State([], 0, 0, [], map[], {}, {}, multiset{})

  /** What a send does: stores and returns, stores but throws, or throws without storing. */
  datatype Send = Acked | LostAck | Refused

  datatype Env = Env(
    handlerOk: bool, republish: Send, deadLetter: Send, crash: bool,
    republishReason: string, handlerReason: string, now: string)

  function GetRetryCount(headers: map<string, string>): int {
    if RETRY_COUNT !in headers || headers[RETRY_COUNT] == "" then 0
    else match ParseInt(headers[RETRY_COUNT]) case Some(n) => n case None => 0
  }

  function Republished(m: Message): Message {
    m.(headers := m.headers[RETRY_COUNT := Print(GetRetryCount(m.headers) + 1)])
  }

  function DeadLetter(cfg: Config, m: Message, reason: string, now: string): Message {
    m.(headers := m.headers[REASON := reason][ORIGINAL_TOPIC := cfg.topic][TIMESTAMP := now])
  }

  /** sendToDeadLetterTopic; the result says whether it returned. */
  function SendToDeadLetter(cfg: Config, s: State, m: Message, reason: string, env: Env): (State, bool) {
    (if env.deadLetter.Refused? then s
     else s.(deadLetters := s.deadLetters + [DeadLetter(cfg, m, reason, env.now)]),
     env.deadLetter.Acked?)
  }

  /** The catch block. */
  function OnError(cfg: Config, s: State, m: Message, env: Env): (State, bool) {
    if m.value.Unreadable? then (s, false)
    else if GetRetryCount(m.headers) < cfg.maxRetries then
      var s := if env.republish.Refused? then s else s.(log := s.log + [Republished(m)]);
      if env.republish.Acked? then (s, true)
      else if cfg.deadLetterTopic.Some? then SendToDeadLetter(cfg, s, m, env.republishReason, env)
      else (s, false)
    else if cfg.deadLetterTopic.Some? then SendToDeadLetter(cfg, s, m, env.handlerReason, env)
    else (s.(dropped := s.dropped + {m.id}), true)
  }

  /** eachMessage; the result says whether it resolved. */
  function EachMessage(cfg: Config, s: State, m: Message, env: Env): (State, bool) {
    if m.value.Missing? then (s, true)
    else if m.value.Event? then
      var s := s.(calls := s.calls + multiset{m.id});
      if env.handlerOk then (s.(handled := s.handled + {m.id}), true) else OnError(cfg, s, m, env)
    else OnError(cfg, s, m, env)
  }

  datatype Step =
    | Publish(m: Message)
    | Deliver(env: Env)
    | Commit(to: nat)
    | Rewind(to: nat)

  predicate Enabled(s: State, step: Step) {
    match step
    case Publish(m) => m.id !in s.published
    case Deliver(_) => s.position < |s.log|
    case Commit(to) => s.committed <= to <= s.position
    case Rewind(to) => s.committed <= to <= s.position
  }

  function Next(cfg: Config, s: State, step: Step): State
    requires Enabled(s, step)
  {
    match step
    case Publish(m) => s.(log := s.log + [m], published := s.published[m.id := m])
    case Deliver(env) =>
      var (s', resolved) := EachMessage(cfg, s, s.log[s.position], env);
      if resolved && !env.crash then s'.(position := s.position + 1) else s'
    case Commit(to) => s.(committed := to)
    case Rewind(to) => s.(position := to)
  }

  ghost predicate IsRun(cfg: Config, steps: seq<Step>, ss: seq<State>) {
    && |ss| == |steps| + 1 && ss[0] == INITIAL
    && forall i :: 0 <= i < |steps| ==> IsStep(cfg, steps, ss, i)
  }

  ghost predicate IsStep(cfg: Config, steps: seq<Step>, ss: seq<State>, i: nat)
    requires |ss| == |steps| + 1 && i < |steps|
  {
    Enabled(ss[i], steps[i]) && ss[i + 1] == Next(cfg, ss[i], steps[i])
  }

  // --- Nothing gets lost ----------------------------------------------------------

  /** The same message: key and value, and every header the protocol does not own. */
  predicate Same(m: Message, original: Message) {
    && m.id == original.id && m.key == original.key && m.value == original.value
    && m.headers - {RETRY_COUNT, REASON, ORIGINAL_TOPIC, TIMESTAMP}
       == original.headers - {RETRY_COUNT, REASON, ORIGINAL_TOPIC, TIMESTAMP}
  }

  predicate Stored(ms: seq<Message>, from: nat, original: Message) {
    exists i :: from <= i < |ms| && Same(ms[i], original)
  }

  /** The messages of a topic all go back to published ones. */
  predicate Faithful(s: State, ms: seq<Message>) {
    forall m :: m in ms ==> m.id in s.published && Same(m, s.published[m.id])
  }

  predicate Finished(s: State, id: nat) {
    || id in s.handled || id in s.dropped
    || (id in s.published && (s.published[id].value.Missing? || Stored(s.deadLetters, 0, s.published[id])))
  }

  /** What lies before the position is finished or stored again further on. */
  predicate Behind(s: State, i: nat)
    requires i < |s.log|
  {
    Finished(s, s.log[i].id) || (s.log[i].id in s.published && Stored(s.log, i + 1, s.published[s.log[i].id]))
  }

  predicate Inv(s: State) {
    && s.committed <= s.position <= |s.log|
    && Faithful(s, s.log) && Faithful(s, s.deadLetters)
    && (forall id :: id in s.published ==> s.published[id].id == id && Stored(s.log, 0, s.published[id]))
    && (forall i :: 0 <= i < s.position ==> Behind(s, i))
  }

  lemma SameAgain(cfg: Config, m: Message, original: Message, reason: string, now: string)
    requires Same(m, original)
    ensures Same(Republished(m), original)
    ensures Same(DeadLetter(cfg, m, reason, now), original)
  {
  }

  /** What one delivery does to the topics. */
  predicate Grows(s: State, s': State) {
    && s.log <= s'.log && s.deadLetters <= s'.deadLetters && s'.published == s.published
    && s.handled <= s'.handled && s.dropped <= s'.dropped
    && s'.position == s.position && s'.committed == s.committed
  }

  lemma GrowthKeeps(s: State, s': State)
    requires Inv(s) && Grows(s, s') && Faithful(s', s'.log) && Faithful(s', s'.deadLetters)
    ensures Inv(s')
  {
    forall id | id in s.published ensures Stored(s'.log, 0, s.published[id]) {
      var i :| 0 <= i < |s.log| && Same(s.log[i], s.published[id]);
      assert s'.log[i] == s.log[i];
    }
    forall i | 0 <= i < s.position ensures Behind(s', i) {
      BehindGrows(s, s', i);
    }
  }

  lemma BehindGrows(s: State, s': State, i: nat)
    requires i < |s.log| && Grows(s, s') && Behind(s, i)
    ensures Behind(s', i)
  {
    var id := s.log[i].id;
    if Finished(s, id) {
      if id in s.published && Stored(s.deadLetters, 0, s.published[id]) {
        var j :| 0 <= j < |s.deadLetters| && Same(s.deadLetters[j], s.published[id]);
        assert s'.deadLetters[j] == s.deadLetters[j];
      }
    } else {
      var j :| i + 1 <= j < |s.log| && Same(s.log[j], s.published[id]);
      assert s'.log[j] == s.log[j];
    }
  }

  lemma DeadLetterGrows(cfg: Config, s: State, m: Message, reason: string, env: Env)
    requires Inv(s) && m.id in s.published && Same(m, s.published[m.id])
    ensures var (s', sent) := SendToDeadLetter(cfg, s, m, reason, env);
            && Grows(s, s') && Inv(s') && s'.log == s.log && (sent ==> Finished(s', m.id))
  {
    var (s', sent) := SendToDeadLetter(cfg, s, m, reason, env);
    if !env.deadLetter.Refused? {
      SameAgain(cfg, m, s.published[m.id], reason, env.now);
      assert s'.deadLetters[|s.deadLetters|] == DeadLetter(cfg, m, reason, env.now);
      assert Stored(s'.deadLetters, 0, s.published[m.id]);
    }
    GrowthKeeps(s, s');
  }

  lemma RepublishGrows(s: State, m: Message, cfg: Config)
    requires Inv(s) && m.id in s.published && Same(m, s.published[m.id])
    ensures var s' := s.(log := s.log + [Republished(m)]);
            && Grows(s, s') && Inv(s') && Stored(s'.log, |s.log|, s.published[m.id])
  {
    var s' := s.(log := s.log + [Republished(m)]);
    SameAgain(cfg, m, s.published[m.id], "", "");
    assert s'.log[|s.log|] == Republished(m);
    GrowthKeeps(s, s');
  }

  lemma ErrorGrows(cfg: Config, s: State, m: Message, env: Env)
    requires Inv(s) && s.position < |s.log| && m.id in s.published && Same(m, s.published[m.id])
    ensures var (s', resolved) := OnError(cfg, s, m, env);
            && Grows(s, s') && Inv(s')
            && (resolved ==> Finished(s', m.id) || Stored(s'.log, s.position + 1, s.published[m.id]))
  {
    if !m.value.Unreadable? {
      if GetRetryCount(m.headers) < cfg.maxRetries {
        RepublishGrows(s, m, cfg);
        var s1 := if env.republish.Refused? then s else s.(log := s.log + [Republished(m)]);
        DeadLetterGrows(cfg, s1, m, env.republishReason, env);
      } else if cfg.deadLetterTopic.Some? {
        DeadLetterGrows(cfg, s, m, env.handlerReason, env);
      } else {
        GrowthKeeps(s, s.(dropped := s.dropped + {m.id}));
      }
    }
  }

  lemma DeliveryGrows(cfg: Config, s: State, env: Env)
    requires Inv(s) && s.position < |s.log|
    ensures var (s', resolved) := EachMessage(cfg, s, s.log[s.position], env);
            && Grows(s, s') && Inv(s') && (resolved ==> Behind(s', s.position))
  {
    var m := s.log[s.position];
    assert m in s.log;
    var called := s.(calls := s.calls + multiset{m.id});
    GrowthKeeps(s, called);
    GrowthKeeps(s, called.(handled := s.handled + {m.id}));
    ErrorGrows(cfg, s, m, env);
    ErrorGrows(cfg, called, m, env);
  }

  lemma Moves(s: State, position: nat, committed: nat)
    requires Inv(s) && committed <= position <= |s.log|
    requires forall i :: 0 <= i < position ==> Behind(s, i)
    ensures Inv(s.(position := position, committed := committed))
  {
    var s' := s.(position := position, committed := committed);
    forall i | 0 <= i < position ensures Behind(s', i) {
      assert Behind(s, i);
    }
  }

  lemma InvPublish(cfg: Config, s: State, m: Message)
    requires Inv(s) && m.id !in s.published
    ensures Inv(Next(cfg, s, Publish(m)))
  {
    var s' := Next(cfg, s, Publish(m));
    assert s'.log[|s.log|] == m && Same(m, m);
    forall id | id in s'.published ensures Stored(s'.log, 0, s'.published[id]) {
      if id != m.id {
        var i :| 0 <= i < |s.log| && Same(s.log[i], s.published[id]);
        assert s'.log[i] == s.log[i];
      }
    }
    forall i | 0 <= i < s.position ensures Behind(s', i) {
      assert s.log[i] in s.log && s'.log[i] == s.log[i];
      BehindPublish(s, m, i);
    }
  }

  lemma InvDeliver(cfg: Config, s: State, env: Env)
    requires Inv(s) && s.position < |s.log|
    ensures Inv(Next(cfg, s, Step.Deliver(env)))
    ensures s.log <= Next(cfg, s, Step.Deliver(env)).log
  {
    DeliveryGrows(cfg, s, env);
    var (s', resolved) := EachMessage(cfg, s, s.log[s.position], env);
    if resolved {
      PassOn(s');
    }
  }

  lemma PassOn(s: State)
    requires Inv(s) && s.position < |s.log| && Behind(s, s.position)
    ensures Inv(s.(position := s.position + 1))
  {
    forall i | 0 <= i < s.position + 1 ensures Behind(s, i) {
      assert i < s.position ==> Behind(s, i);
    }
    Moves(s, s.position + 1, s.committed);
  }

  lemma InvStep(cfg: Config, s: State, step: Step)
    requires Inv(s) && Enabled(s, step)
    ensures Inv(Next(cfg, s, step))
  {
    match step {
      case Publish(m) => InvPublish(cfg, s, m);
      case Deliver(env) => InvDeliver(cfg, s, env);
      case Commit(to) => Moves(s, s.position, to);
      case Rewind(to) => Moves(s, to, s.committed);
    }
  }

  lemma BehindPublish(s: State, m: Message, i: nat)
    requires i < |s.log| && Behind(s, i) && m.id !in s.published && s.log[i].id in s.published
    ensures Behind(s.(log := s.log + [m], published := s.published[m.id := m]), i)
  {
    var s' := s.(log := s.log + [m], published := s.published[m.id := m]);
    if !Finished(s, s.log[i].id) {
      var j :| i + 1 <= j < |s.log| && Same(s.log[j], s.published[s.log[i].id]);
      assert s'.log[j] == s.log[j];
    }
  }

  lemma {:induction false} InvReached(cfg: Config, steps: seq<Step>, ss: seq<State>, i: nat)
    requires IsRun(cfg, steps, ss) && i < |ss|
    ensures Inv(ss[i])
  {
    if i > 0 {
      InvReached(cfg, steps, ss, i - 1);
      assert IsStep(cfg, steps, ss, i - 1);
      InvStep(cfg, ss[i - 1], steps[i - 1]);
    }
  }

  /** From any entry on: the message is finished, or an entry at or beyond `from` still holds it. */
  lemma {:induction false} FinishedOrAhead(s: State, i: nat, from: nat)
    requires Inv(s) && i < |s.log| && from <= s.position
    ensures Finished(s, s.log[i].id) || Stored(s.log, from, s.published[s.log[i].id])
    decreases |s.log| - i
  {
    assert s.log[i] in s.log;
    var original := s.published[s.log[i].id];
    if from <= i {
      assert Same(s.log[i], original);
    } else {
      assert Behind(s, i);
      if !Finished(s, s.log[i].id) {
        var j :| i + 1 <= j < |s.log| && Same(s.log[j], original);
        FinishedOrAhead(s, j, from);
      }
    }
  }

  lemma {:induction false} NothingDropped(cfg: Config, steps: seq<Step>, ss: seq<State>, i: nat)
    requires IsRun(cfg, steps, ss) && i < |ss| && cfg.deadLetterTopic.Some?
    ensures ss[i].dropped == {}
  {
    if i > 0 {
      NothingDropped(cfg, steps, ss, i - 1);
      assert IsStep(cfg, steps, ss, i - 1);
    }
  }

  /**
   * Whatever fails and whatever is configured, every published message with a value has
   * been handled, was given up, is stored at or beyond the committed offset, or is in the
   * dead-letter topic, unchanged.
   */
  lemma Accounted(cfg: Config, steps: seq<Step>, ss: seq<State>, i: nat, id: nat)
    requires IsRun(cfg, steps, ss) && i < |ss|
    requires id in ss[i].published && !ss[i].published[id].value.Missing?
    ensures || id in ss[i].handled
            || id in ss[i].dropped
            || Stored(ss[i].log, ss[i].committed, ss[i].published[id])
            || Stored(ss[i].deadLetters, 0, ss[i].published[id])
  {
    InvReached(cfg, steps, ss, i);
    var s := ss[i];
    var k :| 0 <= k < |s.log| && Same(s.log[k], s.published[id]);
    FinishedOrAhead(s, k, s.committed);
  }

  /** Conservation: with a dead-letter topic nothing is given up. */
  lemma Conservation(cfg: Config, steps: seq<Step>, ss: seq<State>, i: nat, id: nat)
    requires IsRun(cfg, steps, ss) && i < |ss| && cfg.deadLetterTopic.Some?
    requires id in ss[i].published && !ss[i].published[id].value.Missing?
    ensures || id in ss[i].handled
            || Stored(ss[i].log, ss[i].committed, ss[i].published[id])
            || Stored(ss[i].deadLetters, 0, ss[i].published[id])
  {
    Accounted(cfg, steps, ss, i, id);
    NothingDropped(cfg, steps, ss, i);
  }

  /** Exactly when a delivery gives a message up for good. */
  lemma DropsExactlyWithoutDeadLetterTopic(cfg: Config, s: State, m: Message, env: Env)
    requires m.id !in s.dropped
    ensures m.id in EachMessage(cfg, s, m, env).0.dropped <==>
              && cfg.deadLetterTopic.None? && GetRetryCount(m.headers) >= cfg.maxRetries
              && (m.value.Empty? || (m.value.Event? && !env.handlerOk))
  {
  }

  /** Exactly the values that JSON cannot read are passed by no delivery, whatever the handler and the sends do. */
  lemma PassedExactly(cfg: Config, s: State, m: Message)
    ensures (exists env :: EachMessage(cfg, s, m, env).1) <==> !m.value.Unreadable?
  {
    var env := Env(true, Acked, Acked, false, "", "", "");
    assert !m.value.Unreadable? ==> EachMessage(cfg, s, m, env).1;
  }

  /** The log only grows, and a step moves over what was there. */
  lemma LogGrows(cfg: Config, s: State, step: Step)
    requires Inv(s) && Enabled(s, step)
    ensures s.log <= Next(cfg, s, step).log && Next(cfg, s, step).position <= |s.log|
  {
    if step.Deliver? {
      DeliveryGrows(cfg, s, step.env);
    }
  }

  lemma UnreadableHolds(cfg: Config, s: State, step: Step, k: nat)
    requires Inv(s) && Enabled(s, step) && k < |s.log| && s.log[k].value.Unreadable? && s.position <= k
    ensures Next(cfg, s, step).position <= k
  {
    if step.Deliver? {
      if s.position < k {
        DeliveryGrows(cfg, s, step.env);
      } else {
        assert EachMessage(cfg, s, s.log[k], step.env) == (s, false);
      }
    }
  }

  /**
   * A value that JSON cannot read is never passed: the catch block throws on it as well,
   * so it is neither counted nor dead-lettered, and what follows it waits.
   */
  lemma {:induction false} UnreadableNeverPassed(cfg: Config, steps: seq<Step>, ss: seq<State>, i: nat, k: nat)
    requires IsRun(cfg, steps, ss) && i < |ss|
    requires k < |ss[i].log| && ss[i].log[k].value.Unreadable?
    ensures ss[i].position <= k
  {
    if i > 0 {
      InvReached(cfg, steps, ss, i - 1);
      assert IsStep(cfg, steps, ss, i - 1);
      LogGrows(cfg, ss[i - 1], steps[i - 1]);
      if k < |ss[i - 1].log| {
        assert ss[i - 1].log[k] == ss[i].log[k];
        UnreadableNeverPassed(cfg, steps, ss, i - 1, k);
        UnreadableHolds(cfg, ss[i - 1], steps[i - 1], k);
      }
    }
  }

  // --- How far retry counts go, whatever fails ---------------------------------------

  function Max0(n: int): nat {
    if n > 0 then n else 0
  }

  function FirstRetry(s: State, id: nat): int
    requires id in s.published
  {
    GetRetryCount(s.published[id].headers)
  }

  /** The count a republished message carries is one more than it was. */
  lemma RepublishCounts(m: Message)
    ensures GetRetryCount(Republished(m).headers) == GetRetryCount(m.headers) + 1
  {
    PrintParses(GetRetryCount(m.headers) + 1);
  }

  /** A stored copy has been republished at most up to the limit. */
  predicate WithinLimit(cfg: Config, s: State, m: Message) {
    && m.id in s.published
    && FirstRetry(s, m.id) <= GetRetryCount(m.headers)
    && (GetRetryCount(m.headers) <= FirstRetry(s, m.id) || GetRetryCount(m.headers) <= cfg.maxRetries)
  }

  ghost predicate AllWithin(cfg: Config, s: State, ms: seq<Message>) {
    forall i :: 0 <= i < |ms| ==> WithinLimit(cfg, s, ms[i])
  }

  /** How a delivery changes a topic: not at all, or by a copy with a count within the limit. */
  ghost predicate Appends(ms: seq<Message>, ms': seq<Message>, m: Message, max: int) {
    ms' == ms ||
    exists x: Message ::
      && ms' == ms + [x] && x.id == m.id
      && (|| GetRetryCount(x.headers) == GetRetryCount(m.headers)
          || (GetRetryCount(x.headers) == GetRetryCount(m.headers) + 1 && GetRetryCount(m.headers) < max))
  }

  lemma DeadLetterCounts(cfg: Config, m: Message, reason: string, now: string)
    ensures GetRetryCount(DeadLetter(cfg, m, reason, now).headers) == GetRetryCount(m.headers)
  {
    assert RETRY_COUNT[2] == 'r' && REASON[2] == 'd' && ORIGINAL_TOPIC[2] == 'o' && TIMESTAMP[2] == 'e';
  }

  lemma LetterAppends(cfg: Config, s: State, m: Message, reason: string, env: Env)
    ensures var s' := SendToDeadLetter(cfg, s, m, reason, env).0;
            && s'.published == s.published && s'.log == s.log
            && Appends(s.deadLetters, s'.deadLetters, m, cfg.maxRetries)
  {
    DeadLetterCounts(cfg, m, reason, env.now);
    assert DeadLetter(cfg, m, reason, env.now).id == m.id;
  }

  lemma CopyAppends(ms: seq<Message>, m: Message, max: int)
    requires GetRetryCount(m.headers) < max
    ensures Appends(ms, ms + [Republished(m)], m, max)
  {
    RepublishCounts(m);
    assert Republished(m).id == m.id;
  }

  lemma ErrorAppends(cfg: Config, s: State, m: Message, env: Env)
    ensures var s' := OnError(cfg, s, m, env).0;
            && s'.published == s.published
            && Appends(s.log, s'.log, m, cfg.maxRetries) && Appends(s.deadLetters, s'.deadLetters, m, cfg.maxRetries)
  {
    if GetRetryCount(m.headers) < cfg.maxRetries {
      CopyAppends(s.log, m, cfg.maxRetries);
      var s1 := if env.republish.Refused? then s else s.(log := s.log + [Republished(m)]);
      LetterAppends(cfg, s1, m, env.republishReason, env);
    } else {
      LetterAppends(cfg, s, m, env.handlerReason, env);
    }
  }

  lemma DeliveryAppends(cfg: Config, s: State, env: Env)
    requires s.position < |s.log|
    ensures var s', m := Next(cfg, s, Step.Deliver(env)), s.log[s.position];
            && s'.published == s.published
            && Appends(s.log, s'.log, m, cfg.maxRetries) && Appends(s.deadLetters, s'.deadLetters, m, cfg.maxRetries)
  {
    var m := s.log[s.position];
    ErrorAppends(cfg, s, m, env);
    ErrorAppends(cfg, s.(calls := s.calls + multiset{m.id}), m, env);
  }

  lemma AppendedWithin(cfg: Config, s: State, s': State, ms: seq<Message>, ms': seq<Message>, m: Message)
    requires AllWithin(cfg, s, ms) && WithinLimit(cfg, s, m) && s'.published == s.published
    requires Appends(ms, ms', m, cfg.maxRetries)
    ensures AllWithin(cfg, s', ms')
  {
  }

  lemma WithinStep(cfg: Config, s: State, step: Step)
    requires AllWithin(cfg, s, s.log) && AllWithin(cfg, s, s.deadLetters) && Enabled(s, step)
    ensures var s' := Next(cfg, s, step); AllWithin(cfg, s', s'.log) && AllWithin(cfg, s', s'.deadLetters)
  {
    if step.Deliver? {
      var s', m := Next(cfg, s, step), s.log[s.position];
      DeliveryAppends(cfg, s, step.env);
      AppendedWithin(cfg, s, s', s.log, s'.log, m);
      AppendedWithin(cfg, s, s', s.deadLetters, s'.deadLetters, m);
    }
  }

  /**
   * Under any failures, redeliveries and crashes, no copy in the topic or the dead-letter
   * topic has a retry count beyond the larger of its first count and maxRetries: along
   * every line of republished copies the count goes up by one, so every line ends.
   */
  lemma {:induction false} CountsBounded(cfg: Config, steps: seq<Step>, ss: seq<State>, i: nat)
    requires IsRun(cfg, steps, ss) && i < |ss|
    ensures AllWithin(cfg, ss[i], ss[i].log) && AllWithin(cfg, ss[i], ss[i].deadLetters)
  {
    if i > 0 {
      CountsBounded(cfg, steps, ss, i - 1);
      assert IsStep(cfg, steps, ss, i - 1);
      WithinStep(cfg, ss[i - 1], steps[i - 1]);
    }
  }

  // --- How often a message is handled, whatever fails ----------------------------------

  /** The log positions that have been handed to eachMessage before the i-th step. */
  ghost function HandedOut(steps: seq<Step>, ss: seq<State>, i: nat): set<nat>
    requires i <= |steps| < |ss|
  {
    set k | 0 <= k < i && steps[k].Deliver? :: ss[k].position
  }

  /** The k-th step hands out an entry of the message. */
  ghost predicate Hands(steps: seq<Step>, ss: seq<State>, k: nat, id: nat)
    requires k < |steps| < |ss|
  {
    steps[k].Deliver? && ss[k].position < |ss[k].log| && ss[k].log[ss[k].position].id == id
  }

  /** It does so again. */
  ghost predicate HandsAgain(steps: seq<Step>, ss: seq<State>, k: nat, id: nat)
    requires k < |steps| < |ss|
  {
    Hands(steps, ss, k, id) && ss[k].position in HandedOut(steps, ss, k)
  }

  /** How many of the first i steps do, because of a rewind, a crash or a delivery that did not resolve. */
  ghost function Repeats(steps: seq<Step>, ss: seq<State>, i: nat, id: nat): nat
    requires i <= |steps| < |ss|
  {
    if i == 0 then 0 else Repeats(steps, ss, i - 1, id) + if HandsAgain(steps, ss, i - 1, id) then 1 else 0
  }

  /** The weights of a message's entries that have not been handed out. */
  function Ahead(log: seq<Message>, handed: set<nat>, id: nat, weight: Message -> nat): nat {
    if log == [] then 0
    else
      var n := |log| - 1;
      Ahead(log[..n], handed, id, weight) + if log[n].id == id && n !in handed then weight(log[n]) else 0
  }

  lemma AheadAppend(log: seq<Message>, m: Message, handed: set<nat>, id: nat, weight: Message -> nat)
    requires |log| !in handed
    ensures Ahead(log + [m], handed, id, weight)
         == Ahead(log, handed, id, weight) + if m.id == id then weight(m) else 0
  {
    assert (log + [m])[..|log|] == log;
  }

  lemma {:induction false} AheadNothing(log: seq<Message>, handed: set<nat>, id: nat, weight: Message -> nat)
    requires forall m :: m in log ==> m.id != id
    ensures Ahead(log, handed, id, weight) == 0
  {
    if log != [] {
      AheadNothing(log[..|log| - 1], handed, id, weight);
    }
  }

  /** Handing out an entry takes its weight, once. */
  lemma {:induction false} AheadHandsOut(log: seq<Message>, handed: set<nat>, p: nat, id: nat, weight: Message -> nat)
    ensures Ahead(log, handed + {p}, id, weight)
         == Ahead(log, handed, id, weight) - if p < |log| && p !in handed && log[p].id == id then weight(log[p]) else 0
  {
    if log != [] {
      AheadHandsOut(log[..|log| - 1], handed, p, id, weight);
    }
  }

  lemma ErrorStores(cfg: Config, s: State, m: Message, env: Env)
    ensures var s' := OnError(cfg, s, m, env).0;
            && s'.published == s.published && s'.calls == s.calls
            && (s'.log == s.log || (s'.log == s.log + [Republished(m)] && GetRetryCount(m.headers) < cfg.maxRetries))
  {
  }

  lemma DeliveryStores(cfg: Config, s: State, env: Env)
    requires s.position < |s.log|
    ensures var s', m := Next(cfg, s, Step.Deliver(env)), s.log[s.position];
            && s'.published == s.published
            && s'.calls == s.calls + (if m.value.Event? then multiset{m.id} else multiset{})
            && (s'.log == s.log || (s'.log == s.log + [Republished(m)] && GetRetryCount(m.headers) < cfg.maxRetries))
  {
    var m := s.log[s.position];
    ErrorStores(cfg, s, m, env);
    ErrorStores(cfg, s.(calls := s.calls + multiset{m.id}), m, env);
  }

  /** What a delivery does to the entries of a message that are still ahead. */
  lemma AheadDelivers(cfg: Config, s: State, env: Env, handed: set<nat>, id: nat, weight: Message -> nat)
    requires s.position < |s.log| && |s.log| !in handed
    ensures var s', m := Next(cfg, s, Step.Deliver(env)), s.log[s.position];
            Ahead(s'.log, handed + {s.position}, id, weight)
            == Ahead(s.log, handed, id, weight)
               - (if m.id == id && s.position !in handed then weight(m) else 0)
               + (if m.id == id && s'.log != s.log then weight(Republished(m)) else 0)
  {
    var m := s.log[s.position];
    DeliveryStores(cfg, s, env);
    AheadHandsOut(s.log, handed, s.position, id, weight);
    AheadAppend(s.log, Republished(m), handed + {s.position}, id, weight);
  }

  /** The handler calls that a copy and the copies made from it can still cause. */
  function Chances(max: int): Message -> nat {
    (m: Message) => Max0(max - GetRetryCount(m.headers)) + 1
  }

  function One(): Message -> nat {
    (m: Message) => 1
  }

  /** The calls that a message may cause when no entry of it is handed out twice. */
  function Limit(cfg: Config, s: State, id: nat): nat
    requires id in s.published
  {
    Max0(cfg.maxRetries - FirstRetry(s, id)) + 1
  }

  /** The calls made and still possible, and the copies ahead, against the hand-outs repeated so far. */
  ghost predicate Charged(cfg: Config, s: State, handed: set<nat>, id: nat, repeats: nat)
    requires id in s.published
  {
    && s.calls[id] + Ahead(s.log, handed, id, Chances(cfg.maxRetries)) <= Limit(cfg, s, id) * (1 + repeats)
    && Ahead(s.log, handed, id, One()) <= 1 + repeats
  }

  lemma OneRepeatMore(limit: nat, repeats: nat)
    ensures limit * (1 + (repeats + 1)) == limit * (1 + repeats) + limit
  {
  }

  lemma ChargedDeliver(cfg: Config, s: State, env: Env, handed: set<nat>, id: nat, repeats: nat)
    requires s.position < |s.log| && |s.log| !in handed && AllWithin(cfg, s, s.log)
    requires id in s.published && Charged(cfg, s, handed, id, repeats)
    ensures var again := s.log[s.position].id == id && s.position in handed;
            var s' := Next(cfg, s, Step.Deliver(env));
            s'.published == s.published
            && Charged(cfg, s', handed + {s.position}, id, repeats + if again then 1 else 0)
  {
    var m, s' := s.log[s.position], Next(cfg, s, Step.Deliver(env));
    DeliveryStores(cfg, s, env);
    RepublishCounts(m);
    AheadDelivers(cfg, s, env, handed, id, Chances(cfg.maxRetries));
    AheadDelivers(cfg, s, env, handed, id, One());
    OneRepeatMore(Limit(cfg, s, id), repeats);
    assert WithinLimit(cfg, s, m);
    assert Limit(cfg, s', id) == Limit(cfg, s, id);
    assert s'.calls[id] <= s.calls[id] + if m.id == id then 1 else 0;
  }

  /** A published message is in the log, once, and has not been handled. */
  lemma ChargedPublish(cfg: Config, s: State, m: Message, handed: set<nat>, repeats: nat)
    requires (forall x :: x in s.log ==> x.id != m.id) && m.id !in s.calls && |s.log| !in handed
    requires m.id !in s.published
    ensures Charged(cfg, Next(cfg, s, Publish(m)), handed, m.id, repeats)
  {
    AheadNothing(s.log, handed, m.id, Chances(cfg.maxRetries));
    AheadNothing(s.log, handed, m.id, One());
    AheadAppend(s.log, m, handed, m.id, Chances(cfg.maxRetries));
    AheadAppend(s.log, m, handed, m.id, One());
    var limit := Limit(cfg, Next(cfg, s, Publish(m)), m.id);
    assert limit * (1 + repeats) == limit + limit * repeats >= limit;
  }

  lemma ChargedBeside(cfg: Config, s: State, m: Message, handed: set<nat>, id: nat, repeats: nat)
    requires id in s.published && m.id != id && |s.log| !in handed && Charged(cfg, s, handed, id, repeats)
    requires m.id !in s.published
    ensures Charged(cfg, Next(cfg, s, Publish(m)), handed, id, repeats)
  {
    AheadAppend(s.log, m, handed, id, Chances(cfg.maxRetries));
    AheadAppend(s.log, m, handed, id, One());
  }

  ghost predicate CallsKnown(s: State) {
    forall id :: id in s.calls ==> id in s.published
  }

  lemma {:induction false} CallsKnownReached(cfg: Config, steps: seq<Step>, ss: seq<State>, i: nat)
    requires IsRun(cfg, steps, ss) && i < |ss|
    ensures CallsKnown(ss[i])
  {
    if i > 0 {
      CallsKnownReached(cfg, steps, ss, i - 1);
      InvReached(cfg, steps, ss, i - 1);
      assert IsStep(cfg, steps, ss, i - 1);
      if steps[i - 1].Deliver? {
        var s := ss[i - 1];
        DeliveryStores(cfg, s, steps[i - 1].env);
        assert s.log[s.position] in s.log;
      }
    }
  }

  lemma HandedOutNext(steps: seq<Step>, ss: seq<State>, i: nat)
    requires i < |steps| < |ss|
    ensures HandedOut(steps, ss, i + 1)
         == HandedOut(steps, ss, i) + if steps[i].Deliver? then {ss[i].position} else {}
  {
  }

  lemma {:induction false} HandedOutInLog(cfg: Config, steps: seq<Step>, ss: seq<State>, i: nat)
    requires IsRun(cfg, steps, ss) && i < |ss|
    ensures forall p :: p in HandedOut(steps, ss, i) ==> p < |ss[i].log|
  {
    if i > 0 {
      HandedOutInLog(cfg, steps, ss, i - 1);
      InvReached(cfg, steps, ss, i - 1);
      assert IsStep(cfg, steps, ss, i - 1);
      LogGrows(cfg, ss[i - 1], steps[i - 1]);
      HandedOutNext(steps, ss, i - 1);
    }
  }

  /** The message's charges before the i-th step of a run. */
  ghost predicate ChargedAt(cfg: Config, steps: seq<Step>, ss: seq<State>, i: nat, id: nat)
    requires i <= |steps| < |ss| && id in ss[i].published
  {
    Charged(cfg, ss[i], HandedOut(steps, ss, i), id, Repeats(steps, ss, i, id))
  }

  lemma RepeatsNext(steps: seq<Step>, ss: seq<State>, i: nat, id: nat)
    requires i < |steps| < |ss|
    ensures Repeats(steps, ss, i + 1, id)
         == Repeats(steps, ss, i, id) + if HandsAgain(steps, ss, i, id) then 1 else 0
  {
  }

  /** What the next step makes of the charges, by its effect on the state, the hand-outs and the repeats. */
  lemma ChargedNext(
    cfg: Config, steps: seq<Step>, ss: seq<State>, i: nat, id: nat, s': State, handed': set<nat>, repeats': nat)
    requires i < |steps| < |ss| && id in s'.published && Charged(cfg, s', handed', id, repeats')
    requires ss[i + 1] == s' && HandedOut(steps, ss, i + 1) == handed' && Repeats(steps, ss, i + 1, id) == repeats'
    ensures ChargedAt(cfg, steps, ss, i + 1, id)
  {
  }

  lemma ChargedAfterDeliver(cfg: Config, steps: seq<Step>, ss: seq<State>, i: nat, id: nat)
    requires IsRun(cfg, steps, ss) && i < |steps| && steps[i].Deliver?
    requires id in ss[i].published && ChargedAt(cfg, steps, ss, i, id)
    ensures id in ss[i + 1].published && ChargedAt(cfg, steps, ss, i + 1, id)
  {
    assert IsStep(cfg, steps, ss, i);
    HandedOutInLog(cfg, steps, ss, i);
    CountsBounded(cfg, steps, ss, i);
    var s, handed, repeats := ss[i], HandedOut(steps, ss, i), Repeats(steps, ss, i, id);
    ChargedDeliver(cfg, s, steps[i].env, handed, id, repeats);
    HandedOutNext(steps, ss, i);
    RepeatsNext(steps, ss, i, id);
    var again := s.log[s.position].id == id && s.position in handed;
    ChargedNext(cfg, steps, ss, i, id, ss[i + 1], handed + {s.position}, repeats + if again then 1 else 0);
  }

  lemma ChargedAfterPublish(cfg: Config, steps: seq<Step>, ss: seq<State>, i: nat, id: nat)
    requires IsRun(cfg, steps, ss) && i < |steps| && steps[i].Publish? && id in ss[i + 1].published
    requires id in ss[i].published ==> ChargedAt(cfg, steps, ss, i, id)
    ensures ChargedAt(cfg, steps, ss, i + 1, id)
  {
    assert IsStep(cfg, steps, ss, i);
    HandedOutInLog(cfg, steps, ss, i);
    var handed, repeats := HandedOut(steps, ss, i), Repeats(steps, ss, i, id);
    if steps[i].m.id == id {
      FreshInLog(cfg, steps, ss, i);
      ChargedPublish(cfg, ss[i], steps[i].m, handed, repeats);
    } else {
      ChargedBeside(cfg, ss[i], steps[i].m, handed, id, repeats);
    }
    HandedOutNext(steps, ss, i);
    RepeatsNext(steps, ss, i, id);
    ChargedNext(cfg, steps, ss, i, id, ss[i + 1], handed, repeats);
  }

  /** What is published is new to the log and to the handler. */
  lemma FreshInLog(cfg: Config, steps: seq<Step>, ss: seq<State>, i: nat)
    requires IsRun(cfg, steps, ss) && i < |steps| && steps[i].Publish?
    ensures (forall x :: x in ss[i].log ==> x.id != steps[i].m.id) && steps[i].m.id !in ss[i].calls
  {
    assert IsStep(cfg, steps, ss, i);
    InvReached(cfg, steps, ss, i);
    CallsKnownReached(cfg, steps, ss, i);
  }

  lemma ChargedMoved(cfg: Config, s: State, s': State, handed: set<nat>, id: nat, repeats: nat)
    requires id in s.published && Charged(cfg, s, handed, id, repeats)
    requires s'.log == s.log && s'.published == s.published && s'.calls == s.calls
    ensures Charged(cfg, s', handed, id, repeats)
  {
    assert Limit(cfg, s', id) == Limit(cfg, s, id);
  }

  lemma ChargedAfterMove(cfg: Config, steps: seq<Step>, ss: seq<State>, i: nat, id: nat)
    requires IsRun(cfg, steps, ss) && i < |steps| && (steps[i].Commit? || steps[i].Rewind?)
    requires id in ss[i].published && ChargedAt(cfg, steps, ss, i, id)
    ensures id in ss[i + 1].published && ChargedAt(cfg, steps, ss, i + 1, id)
  {
    assert IsStep(cfg, steps, ss, i);
    var handed, repeats := HandedOut(steps, ss, i), Repeats(steps, ss, i, id);
    ChargedMoved(cfg, ss[i], ss[i + 1], handed, id, repeats);
    HandedOutNext(steps, ss, i);
    RepeatsNext(steps, ss, i, id);
    ChargedNext(cfg, steps, ss, i, id, ss[i + 1], handed, repeats);
  }

  lemma {:induction false} ChargedReached(cfg: Config, steps: seq<Step>, ss: seq<State>, i: nat, id: nat)
    requires IsRun(cfg, steps, ss) && i < |ss| && id in ss[i].published
    ensures ChargedAt(cfg, steps, ss, i, id)
  {
    if i > 0 {
      if id in ss[i - 1].published {
        ChargedReached(cfg, steps, ss, i - 1, id);
      }
      assert IsStep(cfg, steps, ss, i - 1);
      match steps[i - 1] {
        case Publish(_) => ChargedAfterPublish(cfg, steps, ss, i - 1, id);
        case Deliver(env) =>
          DeliveryStores(cfg, ss[i - 1], env);
          ChargedAfterDeliver(cfg, steps, ss, i - 1, id);
        case Commit(_) => ChargedAfterMove(cfg, steps, ss, i - 1, id);
        case Rewind(_) => ChargedAfterMove(cfg, steps, ss, i - 1, id);
      }
    }
  }

  /**
   * Whatever fails, a message that starts at retry count r0 reaches the handler at most
   * max(0, maxRetries - r0) + 1 times, and as often again for each time that an entry of
   * it is handed out again; and no more copies of it are ahead than one and those repeats.
   */
  lemma HandlerCallsBounded(cfg: Config, steps: seq<Step>, ss: seq<State>, i: nat, id: nat)
    requires IsRun(cfg, steps, ss) && i < |ss| && id in ss[i].published
    ensures ss[i].calls[id]
         <= (Max0(cfg.maxRetries - FirstRetry(ss[i], id)) + 1) * (1 + Repeats(steps, ss, i, id))
    ensures Ahead(ss[i].log, HandedOut(steps, ss, i), id, One()) <= 1 + Repeats(steps, ss, i, id)
  {
    ChargedReached(cfg, steps, ss, i, id);
  }

  /** No entry of the message is handed out twice in the first i steps. */
  ghost predicate HandedOutOnce(steps: seq<Step>, ss: seq<State>, i: nat, id: nat)
    requires i <= |steps| < |ss|
  {
    forall j, k :: 0 <= j < k < i && steps[j].Deliver? && Hands(steps, ss, k, id) ==>
      ss[j].position != ss[k].position
  }

  lemma {:induction false} OnceMeansNoRepeats(steps: seq<Step>, ss: seq<State>, i: nat, id: nat)
    requires i <= |steps| < |ss|
    ensures HandedOutOnce(steps, ss, i, id) <==> Repeats(steps, ss, i, id) == 0
  {
    if i > 0 {
      OnceMeansNoRepeats(steps, ss, i - 1, id);
      if HandsAgain(steps, ss, i - 1, id) {
        var j :| 0 <= j < i - 1 && steps[j].Deliver? && ss[j].position == ss[i - 1].position;
        assert !HandedOutOnce(steps, ss, i, id);
      }
    }
  }

  /** Whatever sends do: when no entry is handed out twice, the bound itself holds. */
  lemma CallsWithoutRepeats(cfg: Config, steps: seq<Step>, ss: seq<State>, i: nat, id: nat)
    requires IsRun(cfg, steps, ss) && i < |ss| && id in ss[i].published && HandedOutOnce(steps, ss, i, id)
    ensures ss[i].calls[id] <= Max0(cfg.maxRetries - FirstRetry(ss[i], id)) + 1
  {
    OnceMeansNoRepeats(steps, ss, i, id);
    HandlerCallsBounded(cfg, steps, ss, i, id);
  }

  // --- When a message is dead-lettered ---------------------------------------------------

  predicate DeadLettered(deadLetters: seq<Message>, id: nat) {
    exists m :: m in deadLetters && m.id == id
  }

  /** The republishing sends of the message return. */
  ghost predicate Republishes(steps: seq<Step>, ss: seq<State>, i: nat, id: nat)
    requires i <= |steps| < |ss|
  {
    forall k :: 0 <= k < i && Hands(steps, ss, k, id) ==> steps[k].env.republish.Acked?
  }

  /** Every copy's count is made up by calls, and so is a dead letter. */
  ghost predicate Earned(cfg: Config, s: State, id: nat)
    requires id in s.published
  {
    && (forall i :: 0 <= i < |s.log| && s.log[i].id == id ==>
          GetRetryCount(s.log[i].headers) <= FirstRetry(s, id) + s.calls[id])
    && (DeadLettered(s.deadLetters, id) ==> s.calls[id] >= Limit(cfg, s, id))
  }

  /** What a delivery with a republish that returns leaves behind. */
  ghost predicate Delivered(cfg: Config, s: State, s': State, m: Message) {
    && s'.published == s.published
    && s'.calls == s.calls + (if m.value.Event? then multiset{m.id} else multiset{})
    && (s'.log == s.log || s'.log == s.log + [Republished(m)])
    && Letters(cfg, s.deadLetters, s'.deadLetters, m)
  }

  /** No dead letter more, or one of the message when its retries are used up. */
  ghost predicate Letters(cfg: Config, letters: seq<Message>, letters': seq<Message>, m: Message) {
    || letters' == letters
    || (GetRetryCount(m.headers) >= cfg.maxRetries && exists x: Message :: x.id == m.id && letters' == letters + [x])
  }

  lemma ErrorLetters(cfg: Config, s: State, m: Message, env: Env)
    requires env.republish.Acked?
    ensures Letters(cfg, s.deadLetters, OnError(cfg, s, m, env).0.deadLetters, m)
  {
    var x := DeadLetter(cfg, m, env.handlerReason, env.now);
    assert x.id == m.id;
    var letters' := OnError(cfg, s, m, env).0.deadLetters;
    assert letters' != s.deadLetters ==> letters' == s.deadLetters + [x];
  }

  lemma DeliveryEffect(cfg: Config, s: State, env: Env)
    requires s.position < |s.log| && env.republish.Acked?
    ensures Delivered(cfg, s, Next(cfg, s, Step.Deliver(env)), s.log[s.position])
  {
    var m := s.log[s.position];
    DeliveryStores(cfg, s, env);
    ErrorLetters(cfg, s, m, env);
    ErrorLetters(cfg, s.(calls := s.calls + multiset{m.id}), m, env);
  }

  lemma EarnedDelivered(cfg: Config, s: State, s': State, m: Message)
    requires m in s.log && m.value.Event? && m.id in s.published
    requires Earned(cfg, s, m.id) && Delivered(cfg, s, s', m)
    ensures Earned(cfg, s', m.id)
  {
    RepublishCounts(m);
    assert s'.calls[m.id] == s.calls[m.id] + 1;
  }

  /** What other messages' deliveries do to the topics does not matter. */
  lemma EarnedBeside(cfg: Config, s: State, s': State, m: Message, id: nat)
    requires m.id != id && id in s.published && s'.published == s.published && Earned(cfg, s, id)
    requires Appends(s.log, s'.log, m, cfg.maxRetries) && Appends(s.deadLetters, s'.deadLetters, m, cfg.maxRetries)
    requires s'.calls[id] == s.calls[id]
    ensures Earned(cfg, s', id)
  {
  }

  lemma EarnedPublish(cfg: Config, s: State, m: Message, id: nat)
    requires m.id !in s.published && (id == m.id || (id in s.published && Earned(cfg, s, id)))
    requires Faithful(s, s.log) && Faithful(s, s.deadLetters)
    ensures Earned(cfg, Next(cfg, s, Publish(m)), id)
  {
    assert forall i :: 0 <= i < |s.log| ==> s.log[i] in s.log;
  }

  lemma EarnedStep(cfg: Config, steps: seq<Step>, ss: seq<State>, i: nat, id: nat)
    requires IsRun(cfg, steps, ss) && i < |steps| && id in ss[i + 1].published
    requires ss[i + 1].published[id].value.Event? && Republishes(steps, ss, i + 1, id)
    requires id in ss[i].published ==> Earned(cfg, ss[i], id)
    ensures Earned(cfg, ss[i + 1], id)
  {
    var s := ss[i];
    assert IsStep(cfg, steps, ss, i);
    InvReached(cfg, steps, ss, i);
    match steps[i] {
      case Publish(m) => EarnedPublish(cfg, s, m, id);
      case Deliver(env) =>
        var m := s.log[s.position];
        assert m in s.log;
        DeliveryStores(cfg, s, env);
        if m.id == id {
          assert Hands(steps, ss, i, id);
          DeliveryEffect(cfg, s, env);
          EarnedDelivered(cfg, s, ss[i + 1], m);
        } else {
          DeliveryAppends(cfg, s, env);
          EarnedBeside(cfg, s, ss[i + 1], m, id);
        }
      case Commit(_) =>
      case Rewind(_) =>
    }
  }

  lemma {:induction false} EarnedReached(cfg: Config, steps: seq<Step>, ss: seq<State>, i: nat, id: nat)
    requires IsRun(cfg, steps, ss) && i < |ss| && id in ss[i].published
    requires ss[i].published[id].value.Event? && Republishes(steps, ss, i, id)
    ensures Earned(cfg, ss[i], id)
  {
    if i > 0 {
      PublishedStays(cfg, steps, ss, i - 1, id);
      if id in ss[i - 1].published {
        EarnedReached(cfg, steps, ss, i - 1, id);
      }
      EarnedStep(cfg, steps, ss, i - 1, id);
    }
  }

  lemma PublishedStays(cfg: Config, steps: seq<Step>, ss: seq<State>, i: nat, id: nat)
    requires IsRun(cfg, steps, ss) && i < |steps|
    ensures id in ss[i].published ==> id in ss[i + 1].published && ss[i + 1].published[id] == ss[i].published[id]
  {
    assert IsStep(cfg, steps, ss, i);
    if steps[i].Deliver? {
      DeliveryStores(cfg, ss[i], steps[i].env);
    }
  }

  /**
   * A well-formed message whose republishing sends return is dead-lettered only after at
   * least max(0, maxRetries - r0) + 1 handler calls, and after exactly that many when no
   * entry of it is handed out twice.
   */
  lemma DeadLetteredAfterCalls(cfg: Config, steps: seq<Step>, ss: seq<State>, i: nat, id: nat)
    requires IsRun(cfg, steps, ss) && i < |ss| && id in ss[i].published
    requires ss[i].published[id].value.Event? && Republishes(steps, ss, i, id)
    requires DeadLettered(ss[i].deadLetters, id)
    ensures ss[i].calls[id] >= Max0(cfg.maxRetries - FirstRetry(ss[i], id)) + 1
    ensures HandedOutOnce(steps, ss, i, id) ==>
              ss[i].calls[id] == Max0(cfg.maxRetries - FirstRetry(ss[i], id)) + 1
  {
    EarnedReached(cfg, steps, ss, i, id);
    if HandedOutOnce(steps, ss, i, id) {
      CallsWithoutRepeats(cfg, steps, ss, i, id);
    }
  }

  // --- What one delivery does, in full -------------------------------------------------

  /** Without a count, or with one that is no number, the count is 0; a printed number is read back. */
  lemma RetryCountExactly(headers: map<string, string>)
    ensures "x-retry-count" !in headers || headers["x-retry-count"] == "" ==> GetRetryCount(headers) == 0
    ensures forall n :: "x-retry-count" in headers && headers["x-retry-count"] == Print(n) ==>
              GetRetryCount(headers) == n
    ensures "x-retry-count" in headers && ParseInt(headers["x-retry-count"]) == None ==> GetRetryCount(headers) == 0
  {
    forall n | "x-retry-count" in headers && headers["x-retry-count"] == Print(n) ensures GetRetryCount(headers) == n {
      PrintParses(n);
    }
  }

  /** The dead letter of a message: its key and value, its headers, and three that say why. */
  predicate LetterOf(cfg: Config, m: Message, x: Message, reason: string, now: string) {
    && x.id == m.id && x.key == m.key && x.value == m.value
    && x.headers
       == m.headers["x-dead-letter-reason" := reason]["x-original-topic" := cfg.topic]["x-error-timestamp" := now]
  }

  /** A handler that succeeds: nothing is stored, and the consumer moves on unless it crashes. */
  lemma SuccessExactly(cfg: Config, s: State, env: Env)
    requires s.position < |s.log| && s.log[s.position].value.Event? && env.handlerOk
    ensures var s', m := Next(cfg, s, Step.Deliver(env)), s.log[s.position];
            && s'.log == s.log && s'.deadLetters == s.deadLetters && s'.dropped == s.dropped
            && s'.handled == s.handled + {m.id} && s'.calls[m.id] == s.calls[m.id] + 1
            && s'.position == s.position + if env.crash then 0 else 1
  {
  }

  /** A failing handler with retries left and a republish that returns: one copy, with the next count. */
  lemma FailureRepublishes(cfg: Config, s: State, env: Env)
    requires s.position < |s.log| && env.republish.Acked?
    requires var m := s.log[s.position];
             && ((m.value.Event? && !env.handlerOk) || m.value.Empty?)
             && GetRetryCount(m.headers) < cfg.maxRetries
    ensures var s', m := Next(cfg, s, Step.Deliver(env)), s.log[s.position];
            var copy := Message(
              m.id, m.key, m.value, m.headers["x-retry-count" := Print(GetRetryCount(m.headers) + 1)]);
            && s'.log == s.log + [copy] && s'.deadLetters == s.deadLetters
            && s'.handled == s.handled && s'.dropped == s.dropped
            && s'.position == s.position + if env.crash then 0 else 1
  {
  }

  /** A republish that throws, perhaps after storing: the dead-letter topic, if there is one, or again. */
  lemma FailedRepublish(cfg: Config, s: State, env: Env)
    requires s.position < |s.log| && !env.republish.Acked?
    requires var m := s.log[s.position];
             && ((m.value.Event? && !env.handlerOk) || m.value.Empty?)
             && GetRetryCount(m.headers) < cfg.maxRetries
    ensures var s', m := Next(cfg, s, Step.Deliver(env)), s.log[s.position];
            && s'.log == s.log + (if env.republish.LostAck? then [Republished(m)] else [])
            && s'.handled == s.handled && s'.dropped == s.dropped
            && (cfg.deadLetterTopic.None? || env.deadLetter.Refused? ==> s'.deadLetters == s.deadLetters)
            && (cfg.deadLetterTopic.Some? && !env.deadLetter.Refused? ==>
                  |s'.deadLetters| == |s.deadLetters| + 1 && s.deadLetters <= s'.deadLetters
                  && LetterOf(cfg, m, s'.deadLetters[|s.deadLetters|], env.republishReason, env.now))
            && s'.position == s.position
               + if cfg.deadLetterTopic.Some? && env.deadLetter.Acked? && !env.crash then 1 else 0
  {
  }

  /** A failing handler with no retries left: the dead-letter topic, or nothing at all. */
  lemma FailureGivesUp(cfg: Config, s: State, env: Env)
    requires s.position < |s.log|
    requires var m := s.log[s.position];
             && ((m.value.Event? && !env.handlerOk) || m.value.Empty?)
             && GetRetryCount(m.headers) >= cfg.maxRetries
    ensures var s', m := Next(cfg, s, Step.Deliver(env)), s.log[s.position];
            && s'.log == s.log && s'.handled == s.handled
            && s'.dropped == s.dropped + (if cfg.deadLetterTopic.None? then {m.id} else {})
            && (cfg.deadLetterTopic.None? || env.deadLetter.Refused? ==> s'.deadLetters == s.deadLetters)
            && (cfg.deadLetterTopic.Some? && !env.deadLetter.Refused? ==>
                  |s'.deadLetters| == |s.deadLetters| + 1 && s.deadLetters <= s'.deadLetters
                  && LetterOf(cfg, m, s'.deadLetters[|s.deadLetters|], env.handlerReason, env.now))
            && s'.position == s.position
               + if (cfg.deadLetterTopic.None? || env.deadLetter.Acked?) && !env.crash then 1 else 0
  {
  }

  /** The values that are not handled at all: null is passed, malformed JSON stays. */
  lemma UnhandledExactly(cfg: Config, s: State, env: Env)
    requires s.position < |s.log| && (s.log[s.position].value.Missing? || s.log[s.position].value.Unreadable?)
    ensures var s' := Next(cfg, s, Step.Deliver(env));
            && s' == s.(position := s.position + if s.log[s.position].value.Missing? && !env.crash then 1 else 0)
  {
  }

  /** The first failure of a fresh message: republished as it is, with the count 1. */
  lemma FreshMessageRepublished(cfg: Config, s: State, env: Env)
    requires s.position < |s.log| && s.log[s.position].value.Event? && !env.handlerOk
    requires var headers := s.log[s.position].headers;
             "x-retry-count" !in headers || headers["x-retry-count"] == ""
    requires cfg.maxRetries > 0 && env.republish.Acked?
    ensures var m := s.log[s.position];
            && EachMessage(cfg, s, m, env).1
            && Next(cfg, s, Step.Deliver(env)).deadLetters == s.deadLetters
            && Next(cfg, s, Step.Deliver(env)).log
               == s.log + [Message(m.id, m.key, m.value, m.headers["x-retry-count" := "1"])]
  {
    RetryCountExactly(s.log[s.position].headers);
    FailureRepublishes(cfg, s, env);
    PrintOne();
  }

  lemma PrintOne()
    ensures Print(1) == "1"
  {
    assert Digit(1) == '1';
  }

  // --- Runs without failures --------------------------------------------------------------

  /** A step in which nothing but the handler fails. */
  predicate Reliable(step: Step) {
    match step
    case Publish(_) => true
    case Deliver(env) => env.republish.Acked? && env.deadLetter.Acked? && !env.crash
    case Commit(_) => true
    case Rewind(_) => false
  }

  lemma ReliableMoves(cfg: Config, s: State, step: Step)
    requires Enabled(s, step) && Reliable(step)
    ensures Next(cfg, s, step).position >= s.position
    ensures step.Deliver? && s.log[s.position].value.Event? ==> Next(cfg, s, step).position == s.position + 1
  {
  }

  lemma {:induction false} ReliableAdvances(cfg: Config, steps: seq<Step>, ss: seq<State>, j: nat, k: nat)
    requires IsRun(cfg, steps, ss) && j <= k < |ss| && forall n :: j <= n < k ==> Reliable(steps[n])
    ensures ss[j].position <= ss[k].position
  {
    if j < k {
      ReliableAdvances(cfg, steps, ss, j, k - 1);
      assert IsStep(cfg, steps, ss, k - 1);
      ReliableMoves(cfg, ss[k - 1], steps[k - 1]);
    }
  }

  lemma {:induction false} LogKept(cfg: Config, steps: seq<Step>, ss: seq<State>, j: nat, k: nat)
    requires IsRun(cfg, steps, ss) && j <= k < |ss|
    ensures ss[j].log <= ss[k].log
  {
    if j < k {
      LogKept(cfg, steps, ss, j, k - 1);
      InvReached(cfg, steps, ss, k - 1);
      assert IsStep(cfg, steps, ss, k - 1);
      LogGrows(cfg, ss[k - 1], steps[k - 1]);
    }
  }

  lemma {:induction false} PublishedKept(cfg: Config, steps: seq<Step>, ss: seq<State>, k: nat, i: nat, id: nat)
    requires IsRun(cfg, steps, ss) && k <= i < |ss| && id in ss[k].published
    ensures id in ss[i].published && ss[i].published[id] == ss[k].published[id]
  {
    if k < i {
      PublishedKept(cfg, steps, ss, k, i - 1, id);
      PublishedStays(cfg, steps, ss, i - 1, id);
    }
  }

  /** Without failures no entry of a well-formed message is handed out twice. */
  lemma ReliableHandsOutOnce(cfg: Config, steps: seq<Step>, ss: seq<State>, i: nat, id: nat)
    requires IsRun(cfg, steps, ss) && i < |ss| && id in ss[i].published && ss[i].published[id].value.Event?
    requires forall k :: 0 <= k < i ==> Reliable(steps[k])
    ensures HandedOutOnce(steps, ss, i, id) && Republishes(steps, ss, i, id)
  {
    forall j, k | 0 <= j < k < i && steps[j].Deliver? && Hands(steps, ss, k, id)
      ensures ss[j].position != ss[k].position
    {
      assert IsStep(cfg, steps, ss, j);
      var p := ss[j].position;
      if p == ss[k].position {
        LogKept(cfg, steps, ss, j, k);
        InvReached(cfg, steps, ss, k);
        assert ss[k].log[p] in ss[k].log && ss[k].log[p] == ss[j].log[p];
        PublishedKept(cfg, steps, ss, k, i, id);
        assert Reliable(steps[j]);
        ReliableMoves(cfg, ss[j], steps[j]);
        ReliableAdvances(cfg, steps, ss, j + 1, k);
      }
    }
    assert forall k :: 0 <= k < i ==> Reliable(steps[k]);
  }

  /** When only the handler fails, the bound holds, and a dead letter has taken exactly that many calls. */
  lemma ReliableCalls(cfg: Config, steps: seq<Step>, ss: seq<State>, i: nat, id: nat)
    requires IsRun(cfg, steps, ss) && i < |ss| && id in ss[i].published && ss[i].published[id].value.Event?
    requires forall k :: 0 <= k < i ==> Reliable(steps[k])
    ensures ss[i].calls[id] <= Max0(cfg.maxRetries - FirstRetry(ss[i], id)) + 1
    ensures DeadLettered(ss[i].deadLetters, id) ==>
              ss[i].calls[id] == Max0(cfg.maxRetries - FirstRetry(ss[i], id)) + 1
  {
    ReliableHandsOutOnce(cfg, steps, ss, i, id);
    CallsWithoutRepeats(cfg, steps, ss, i, id);
    if DeadLettered(ss[i].deadLetters, id) {
      DeadLetteredAfterCalls(cfg, steps, ss, i, id);
    }
  }

  /** A fresh message, when only the handler fails: a dead letter after exactly maxRetries + 1 calls. */
  lemma FreshMessageCalls(cfg: Config, steps: seq<Step>, ss: seq<State>, i: nat, id: nat)
    requires IsRun(cfg, steps, ss) && i < |ss| && id in ss[i].published && ss[i].published[id].value.Event?
    requires var headers := ss[i].published[id].headers;
             "x-retry-count" !in headers || headers["x-retry-count"] == ""
    requires forall k :: 0 <= k < i ==> Reliable(steps[k])
    ensures ss[i].calls[id] <= Max0(cfg.maxRetries) + 1
    ensures DeadLettered(ss[i].deadLetters, id) ==> ss[i].calls[id] == Max0(cfg.maxRetries) + 1
  {
    RetryCountExactly(ss[i].published[id].headers);
    ReliableCalls(cfg, steps, ss, i, id);
  }

  // --- Repeats do add calls ---------------------------------------------------------------

  /** After `n` crashes of the consumer, each right after a handler call that succeeded. */
  ghost predicate Crashed(s: State, m: Message, n: nat) {
    && s.log == [m] && s.position == 0 && s.published == map[m.id := m] && s.calls[m.id] == n
  }

  lemma {:induction false} CrashRun(cfg: Config, m: Message, n: nat) returns (steps: seq<Step>, ss: seq<State>)
    requires m.value.Event?
    ensures IsRun(cfg, steps, ss) && Crashed(ss[|steps|], m, n)
  {
    if n == 0 {
      steps, ss := [Publish(m)], [INITIAL, Next(cfg, INITIAL, Publish(m))];
      assert IsStep(cfg, steps, ss, 0);
    } else {
      var steps', ss' := CrashRun(cfg, m, n - 1);
      var crash := Step.Deliver(Env(true, Acked, Acked, true, "", "", ""));
      var last := ss'[|steps'|];
      steps, ss := steps' + [crash], ss' + [Next(cfg, last, crash)];
      forall i | 0 <= i < |steps| ensures IsStep(cfg, steps, ss, i) {
        assert i < |steps'| ==> IsStep(cfg, steps', ss', i);
      }
    }
  }

  /** For every configuration and message: crashes alone take the calls beyond the bound without repeats. */
  lemma RedeliveryAddsCalls(cfg: Config, m: Message) returns (steps: seq<Step>, ss: seq<State>)
    requires m.value.Event?
    ensures IsRun(cfg, steps, ss) && m.id in ss[|steps|].published
    ensures ss[|steps|].calls[m.id] > Max0(cfg.maxRetries - FirstRetry(ss[|steps|], m.id)) + 1
  {
    steps, ss := CrashRun(cfg, m, Max0(cfg.maxRetries - GetRetryCount(m.headers)) + 2);
  }

  // --- The consumer -------------------------------------------------------------------

  class MessageHandler {
    const config: Config
    var log: seq<Message>
    var deadLetters: seq<Message>
    var position: nat
    var committed: nat
    ghost var published: map<nat, Message>
    ghost var handled: set<nat>
    ghost var dropped: set<nat>
    ghost var calls: multiset<nat>

    ghost function View(): State
      reads this
    {
      State(log, position, committed, deadLetters, published, handled, dropped, calls)
    }

    constructor (config: Config)
      ensures this.config == config && View() == INITIAL
    {
      this.config := config;
      log, deadLetters, position, committed := [], [], 0, 0;
      published, handled, dropped, calls := map[], {}, {}, multiset{};
    }

    method RepublishWithIncrementedRetry(m: Message, currentRetry: int, send: Send) returns (threw: bool)
      requires currentRetry == GetRetryCount(m.headers)
      modifies this
      ensures View() == if send.Refused? then old(View()) else old(View()).(log := old(log) + [Republished(m)])
      ensures threw == !send.Acked?
    {
      if !send.Refused? {
        log := log + [m.(headers := m.headers[RETRY_COUNT := Print(currentRetry + 1)])];
      }
      threw := !send.Acked?;
    }

    method SendToDeadLetterTopic(m: Message, reason: string, env: Env) returns (threw: bool)
      modifies this
      ensures (View(), !threw) == SendToDeadLetter(config, old(View()), m, reason, env)
    {
      if !env.deadLetter.Refused? {
        var headers := m.headers[REASON := reason];
        headers := headers[ORIGINAL_TOPIC := config.topic];
        headers := headers[TIMESTAMP := env.now];
        deadLetters := deadLetters + [m.(headers := headers)];
      }
      threw := !env.deadLetter.Acked?;
    }

    /** The catch block of eachMessage. */
    method HandleError(m: Message, env: Env) returns (resolved: bool)
      modifies this
      ensures (View(), resolved) == OnError(config, old(View()), m, env)
    {
      var currentRetry := GetRetryCount(m.headers);
      if m.value.Unreadable? {
        return false;
      }
      if currentRetry < config.maxRetries {
        var failed := RepublishWithIncrementedRetry(m, currentRetry, env.republish);
        if failed {
          if config.deadLetterTopic.None? {
            return false;
          }
          var threw := SendToDeadLetterTopic(m, env.republishReason, env);
          return !threw;
        }
      } else if config.deadLetterTopic.Some? {
        var threw := SendToDeadLetterTopic(m, env.handlerReason, env);
        return !threw;
      } else {
        dropped := dropped + {m.id};
      }
      return true;
    }

    method HandleMessage(m: Message, env: Env) returns (resolved: bool)
      modifies this
      ensures (View(), resolved) == EachMessage(config, old(View()), m, env)
    {
      if m.value.Missing? {
        return true;
      }
      if m.value.Event? {
        calls := calls + multiset{m.id};
        if env.handlerOk {
          handled := handled + {m.id};
          return true;
        }
      }
      resolved := HandleError(m, env);
    }

    /** The consumer takes the message at its position. */
    method Deliver(env: Env)
      requires position < |log|
      modifies this
      ensures View() == Next(config, old(View()), Step.Deliver(env))
    {
      var resolved := HandleMessage(log[position], env);
      if resolved && !env.crash {
        position := position + 1;
      }
    }
  }
}

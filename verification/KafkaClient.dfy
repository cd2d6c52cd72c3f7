/**
 * The producer lifecycle of KafkaClientManager (packages/events/src/client.ts): a
 * circuit breaker, a bounded automatic reconnect and a producer handle.
 *
 * Node runs one synchronous piece of code at a time; between two `await`s anything
 * else may run.  An event below is one such piece.  `State` holds the manager's
 * fields and, in `loop`, what the runtime holds for it: the timers that are set, the
 * calls of `getProducer` in flight, the `disconnect()` calls in flight.
 */
module KafkaClient {
  import opened Wrappers

  datatype Config = Config(enabled: bool, threshold: int, maxRetries: nat)

  const MAX_RECONNECT_ATTEMPTS: nat := 10

  datatype Breaker = Closed | Open | HalfOpen

  /** Where a call of getProducer waits. */
  datatype Phase =
    | Connecting  // for producer.connect()
    | Sleeping    // for the retry interval
    | Exhausted   // retryOperation has thrown; the catch block is next
    | Connected   // retryOperation has returned; the listeners are next
    | Rejected    // a failed automatic reconnect; its catch block is next

  datatype Attempt = Attempt(tries: nat, phase: Phase, reconnect: bool)

  datatype Loop = Loop(
    halfOpenTimers: set<nat>,
    reconnectTimers: set<nat>,
    nextHandle: nat,
    attempts: map<nat, Attempt>,
    closes: nat,
    listeners: nat)

  datatype State = State(
    breaker: Breaker,
    failureCount: nat,
    halfOpenTimeout: Option<nat>,
    hasProducer: bool,
    connected: bool,
    reconnectTimeout: Option<nat>,
    isClosing: bool,
    reconnectAttempts: nat,
    loop: Loop)

  const INITIAL :=
    State(Closed, 0, None, false, false, None, false, 0, Loop({}, {}, 0, map[], 0, 0))

  // --- The synchronous pieces ------------------------------------------------

  function ClearHalfOpen(s: State): State {
    match s.halfOpenTimeout
    case None => s
    case Some(h) =>
      s.(halfOpenTimeout := None, loop := s.loop.(halfOpenTimers := s.loop.halfOpenTimers - {h}))
  }

  function ClearReconnect(s: State): State {
    match s.reconnectTimeout
    case None => s
    case Some(h) =>
      s.(reconnectTimeout := None, loop := s.loop.(reconnectTimers := s.loop.reconnectTimers - {h}))
  }

  function BreakerSuccess(c: Config, s: State): State {
    if !c.enabled then s
    else ClearHalfOpen(s.(breaker := if s.breaker.HalfOpen? then Closed else s.breaker, failureCount := 0))
  }

  function OpenCircuit(s: State): State {
    var h := s.loop.nextHandle;
    s.(breaker := Open, halfOpenTimeout := Some(h),
       loop := s.loop.(halfOpenTimers := s.loop.halfOpenTimers + {h}, nextHandle := h + 1))
  }

  function BreakerFailure(c: Config, s: State): State {
    if !c.enabled then s
    else
      var s' := s.(failureCount := s.failureCount + 1);
      if (s.breaker.Closed? && s'.failureCount >= c.threshold) || s.breaker.HalfOpen? then OpenCircuit(s')
      else s'
  }

  predicate BreakerOpen(c: Config, s: State) {
    c.enabled && s.breaker.Open?
  }

  function PutAttempt(s: State, id: nat, a: Attempt): State {
    s.(loop := s.loop.(attempts := s.loop.attempts[id := a]))
  }

  function DropAttempt(s: State, id: nat): State {
    s.(loop := s.loop.(attempts := s.loop.attempts - {id}))
  }

  /** A call of getProducer that rejects: the reconnect callback catches its own. */
  function Reject(s: State, id: nat, tries: nat, reconnect: bool): State {
    if reconnect then PutAttempt(s, id, Attempt(tries, Rejected, true)) else DropAttempt(s, id)
  }

  /** retryOperation after a failed try: wait and try again, or give up. */
  function AfterFailedTry(c: Config, s: State, id: nat, a: Attempt): State {
    PutAttempt(s, id, a.(phase := if a.tries < c.maxRetries then Sleeping else Exhausted))
  }

  /** Does this call of getProducer get past its first checks? */
  predicate PassesChecks(c: Config, s: State) {
    !BreakerOpen(c, s) && !(s.hasProducer && s.connected)
  }

  /** getProducer up to its first await. */
  function GetProducer(c: Config, s: State, id: nat, configOk: bool, reconnect: bool): State {
    var s := s.(isClosing := false);
    if BreakerOpen(c, s) then Reject(s, id, 0, reconnect)
    else if s.hasProducer && s.connected then s
    else if !configOk then Reject(BreakerFailure(c, s), id, 0, reconnect)
    else
      var s := s.(hasProducer := true);
      PutAttempt(
        s, id, if c.maxRetries == 0 then Attempt(0, Exhausted, reconnect) else Attempt(1, Connecting, reconnect))
  }

  function ScheduleReconnect(s: State): State {
    if s.isClosing || !s.hasProducer || s.reconnectTimeout.Some? then s
    else if s.reconnectAttempts >= MAX_RECONNECT_ATTEMPTS then s
    else
      var h := s.loop.nextHandle;
      s.(reconnectAttempts := s.reconnectAttempts + 1, reconnectTimeout := Some(h),
         loop := s.loop.(reconnectTimers := s.loop.reconnectTimers + {h}, nextHandle := h + 1))
  }

  function CloseStart(s: State): State {
    ClearHalfOpen(ClearReconnect(s.(isClosing := true)))
  }

  function CloseFinish(s: State): State {
    s.(hasProducer := false, breaker := Closed, failureCount := 0)
  }

  // --- Events ------------------------------------------------------------------

  datatype Event =
    | Call(id: nat, configOk: bool)
    | ReconnectFires(handle: nat, id: nat, configOk: bool)
    | ConnectOk(id: nat)
    | ConnectFails(id: nat)
    | Wake(id: nat)
    | Settle(id: nat)
    | Listen(id: nat)
    | Catch(id: nat)
    | HalfOpenFires(handle: nat)
    | Disconnected
    | CloseBegin
    | CloseEnd
    | CloseThrows

  predicate InPhase(s: State, id: nat, phase: Phase) {
    id in s.loop.attempts && s.loop.attempts[id].phase == phase
  }

  predicate Enabled(s: State, e: Event) {
    match e
    case Call(id, _) => id !in s.loop.attempts
    case ReconnectFires(h, id, _) => h in s.loop.reconnectTimers && id !in s.loop.attempts
    case ConnectOk(id) => InPhase(s, id, Connecting)
    case ConnectFails(id) => InPhase(s, id, Connecting)
    case Wake(id) => InPhase(s, id, Sleeping)
    case Settle(id) => InPhase(s, id, Exhausted)
    case Listen(id) => InPhase(s, id, Connected)
    case Catch(id) => InPhase(s, id, Rejected)
    case HalfOpenFires(h) => h in s.loop.halfOpenTimers
    case Disconnected => s.loop.listeners > 0
    case CloseBegin => true
    case CloseEnd => s.loop.closes > 0
    case CloseThrows => s.loop.closes > 0
  }

  function Next(c: Config, s: State, e: Event): State
    requires Enabled(s, e)
  {
    match e
    case Call(id, configOk) =>
      GetProducer(c, s, id, configOk, false)
    case ReconnectFires(h, id, configOk) =>
      var s := s.(reconnectTimeout := None, loop := s.loop.(reconnectTimers := s.loop.reconnectTimers - {h}));
      if s.isClosing || !s.hasProducer then s else GetProducer(c, s, id, configOk, true)
    case ConnectOk(id) =>
      var s := PutAttempt(s, id, s.loop.attempts[id].(phase := Connected));
      BreakerSuccess(c, s.(connected := true, reconnectAttempts := 0))
    case ConnectFails(id) =>
      AfterFailedTry(c, s, id, s.loop.attempts[id])
    case Wake(id) =>
      // connect() on a producer that a close has taken away throws at once
      var a := s.loop.attempts[id].(tries := s.loop.attempts[id].tries + 1);
      if s.hasProducer then PutAttempt(s, id, a.(phase := Connecting)) else AfterFailedTry(c, s, id, a)
    case Settle(id) =>
      Reject(BreakerFailure(c, s), id, s.loop.attempts[id].tries, s.loop.attempts[id].reconnect)
    case Listen(id) =>
      var s := DropAttempt(s, id);
      if s.hasProducer then s.(loop := s.loop.(listeners := s.loop.listeners + 1)) else s
    case Catch(id) =>
      ScheduleReconnect(DropAttempt(s, id))
    case HalfOpenFires(h) =>
      s.(breaker := HalfOpen, halfOpenTimeout := None,
         loop := s.loop.(halfOpenTimers := s.loop.halfOpenTimers - {h}))
    case Disconnected =>
      if s.isClosing then s else ScheduleReconnect(s.(connected := false))
    case CloseBegin =>
      var s := CloseStart(s);
      if s.hasProducer && s.connected then s.(loop := s.loop.(closes := s.loop.closes + 1)) else CloseFinish(s)
    case CloseEnd =>
      CloseFinish(s.(connected := false, loop := s.loop.(closes := s.loop.closes - 1)))
    case CloseThrows =>
      s.(loop := s.loop.(closes := s.loop.closes - 1))
  }

  /** The step starts a connection attempt (which runs until it is connected or settled). */
  predicate StartsAttempt(c: Config, s: State, e: Event) {
    match e
    case Call(_, _) => PassesChecks(c, s)
    case ReconnectFires(_, _, _) => !s.isClosing && s.hasProducer && PassesChecks(c, s)
    case _ => false
  }

  /** The step calls producer.connect(). */
  predicate BeginsConnect(c: Config, s: State, e: Event) {
    match e
    case Call(_, configOk) => configOk && StartsAttempt(c, s, e) && c.maxRetries > 0
    case ReconnectFires(_, _, configOk) => configOk && StartsAttempt(c, s, e) && c.maxRetries > 0
    case Wake(_) => s.hasProducer
    case _ => false
  }

  predicate Active(a: Attempt) {
    a.phase.Connecting? || a.phase.Sleeping? || a.phase.Exhausted?
  }

  /** No connection attempt and no close is under way. */
  predicate Quiet(s: State) {
    s.loop.closes == 0 && forall id :: id in s.loop.attempts ==> !Active(s.loop.attempts[id])
  }

  predicate Starts(e: Event) {
    e.Call? || e.ReconnectFires?
  }

  predicate Retries(e: Event) {
    e.ConnectFails? || e.Wake? || e.Listen?
  }

  predicate Fails(e: Event) {
    e.Settle? || e.HalfOpenFires?
  }

  predicate Reconnects(e: Event) {
    e.Catch? || e.Disconnected?
  }

  predicate Closes(e: Event) {
    e.CloseBegin? || e.CloseEnd? || e.CloseThrows?
  }

  // --- Runs ----------------------------------------------------------------------

  /** How much may overlap in a run. */
  datatype Discipline =
    | Anything
    | AtomicClose  // closeProducer is one step: nothing runs while it disconnects
    | Serial       // attempts overlap neither each other nor closeProducer

  predicate Allowed(d: Discipline, c: Config, s: State, e: Event) {
    match d
    case Anything => true
    case AtomicClose => s.loop.closes > 0 ==> e.CloseEnd? || e.CloseThrows?
    case Serial => StartsAttempt(c, s, e) || e.CloseBegin? ==> Quiet(s)
  }

  ghost predicate IsRun(d: Discipline, c: Config, es: seq<Event>, ss: seq<State>) {
    && |ss| == |es| + 1 && ss[0] == INITIAL
    && forall i :: 0 <= i < |es| ==> IsStep(d, c, ss, es, i)
  }

  ghost predicate IsStep(d: Discipline, c: Config, ss: seq<State>, es: seq<Event>, i: nat)
    requires |ss| == |es| + 1 && i < |es|
  {
    Enabled(ss[i], es[i]) && Allowed(d, c, ss[i], es[i]) && ss[i + 1] == Next(c, ss[i], es[i])
  }

  // --- Any overlap: the breaker ------------------------------------------------

  function Pending(timeout: Option<nat>): set<nat> {
    if timeout.Some? then {timeout.value} else {}
  }

  predicate ClosedBelow(c: Config, s: State) {
    s.breaker.Closed? ==> s.failureCount < c.threshold
  }

  /** Closed means below the threshold, no timer leaks, and a set timer means open. */
  predicate TimerInv(c: Config, s: State) {
    && ClosedBelow(c, s)
    // the timers that are set are the one the field holds
    && s.loop.halfOpenTimers == Pending(s.halfOpenTimeout)
    && (s.loop.halfOpenTimers != {} ==> s.breaker.Open?)
  }

  /** A close ends while a half-open timer is set: an attempt has failed since it began. */
  predicate LateClose(s: State, e: Event) {
    e.CloseEnd? && s.loop.halfOpenTimers != {}
  }

  /** Whatever overlaps, a closed circuit has fewer failures than the threshold. */
  lemma ClosedBelowStep(c: Config, s: State, e: Event)
    requires c.threshold >= 1 && ClosedBelow(c, s) && Enabled(s, e)
    ensures ClosedBelow(c, Next(c, s, e))
  {
  }

  lemma TimerStart(c: Config, s: State, e: Event)
    requires c.threshold >= 1 && TimerInv(c, s) && Enabled(s, e) && Starts(e)
    ensures TimerInv(c, Next(c, s, e))
    ensures Next(c, s, e).breaker.HalfOpen? ==> s.breaker.HalfOpen?
  {
  }

  lemma TimerFailure(c: Config, s: State, e: Event)
    requires c.threshold >= 1 && TimerInv(c, s) && Enabled(s, e) && Fails(e)
    ensures TimerInv(c, Next(c, s, e))
    ensures Next(c, s, e).breaker.HalfOpen? ==> s.breaker.HalfOpen? || s.breaker.Open?
  {
  }

  lemma TimerRest(c: Config, s: State, e: Event)
    requires c.threshold >= 1 && TimerInv(c, s) && Enabled(s, e) && !Starts(e) && !Fails(e)
    ensures TimerInv(c, Next(c, s, e)) <==> !LateClose(s, e)
    ensures Next(c, s, e).breaker.HalfOpen? ==> s.breaker.HalfOpen?
  {
  }

  /** Exactly which step breaks the breaker's safety; HALF_OPEN always comes from OPEN. */
  lemma TimerStep(c: Config, s: State, e: Event)
    requires c.threshold >= 1 && TimerInv(c, s) && Enabled(s, e)
    ensures TimerInv(c, Next(c, s, e)) <==> !LateClose(s, e)
    ensures Next(c, s, e).breaker.HalfOpen? && !s.breaker.HalfOpen? ==> s.breaker.Open?
  {
    if Starts(e) {
      TimerStart(c, s, e);
    } else if Fails(e) {
      TimerFailure(c, s, e);
    } else {
      TimerRest(c, s, e);
    }
  }

  /** In every run, of any discipline, a closed circuit is below the threshold. */
  lemma {:induction false} ClosedBelowAlways(d: Discipline, c: Config, es: seq<Event>, ss: seq<State>, i: nat)
    requires c.threshold >= 1 && IsRun(d, c, es, ss) && i < |ss|
    ensures ClosedBelow(c, ss[i])
  {
    if i > 0 {
      ClosedBelowAlways(d, c, es, ss, i - 1);
      assert IsStep(d, c, ss, es, i - 1);
      ClosedBelowStep(c, ss[i - 1], es[i - 1]);
    }
  }

  /** No close before the i-th step has ended late. */
  ghost predicate NoLateClose(es: seq<Event>, ss: seq<State>, i: nat)
    requires i <= |es| < |ss|
  {
    forall k :: 0 <= k < i ==> !LateClose(ss[k], es[k])
  }

  /** Whatever overlaps, a run is safe up to a point exactly when no close has ended late before it. */
  lemma {:induction false} SafeExactly(d: Discipline, c: Config, es: seq<Event>, ss: seq<State>, i: nat)
    requires c.threshold >= 1 && IsRun(d, c, es, ss) && i < |ss|
    ensures (forall j :: 0 <= j <= i ==> TimerInv(c, ss[j])) <==> NoLateClose(es, ss, i)
  {
    if i > 0 {
      SafeExactly(d, c, es, ss, i - 1);
      assert IsStep(d, c, ss, es, i - 1);
      if TimerInv(c, ss[i - 1]) {
        TimerStep(c, ss[i - 1], es[i - 1]);
      }
    }
  }

  /** Safety of the breaker up to the first close that ends late, whatever overlaps. */
  lemma SafeBeforeLateClose(d: Discipline, c: Config, es: seq<Event>, ss: seq<State>, i: nat)
    requires c.threshold >= 1 && IsRun(d, c, es, ss) && i < |ss| && NoLateClose(es, ss, i)
    ensures ss[i].breaker.Closed? ==> ss[i].failureCount < c.threshold
    ensures |ss[i].loop.halfOpenTimers| <= 1
    ensures ss[i].loop.halfOpenTimers != {} ==> ss[i].breaker.Open?
    ensures i > 0 && ss[i].breaker.HalfOpen? && !ss[i - 1].breaker.HalfOpen? ==> ss[i - 1].breaker.Open?
  {
    SafeExactly(d, c, es, ss, i);
    assert TimerInv(c, ss[i]);
    if i > 0 {
      assert IsStep(d, c, ss, es, i - 1);
      TimerStep(c, ss[i - 1], es[i - 1]);
    }
  }

  predicate NoTimerWhileClosing(s: State) {
    s.loop.closes > 0 ==> s.loop.halfOpenTimers == {}
  }

  lemma AtomicStep(c: Config, s: State, e: Event)
    requires TimerInv(c, s) && NoTimerWhileClosing(s) && Enabled(s, e) && Allowed(AtomicClose, c, s, e)
    ensures NoTimerWhileClosing(Next(c, s, e))
  {
  }

  /** When closeProducer is one step, no close ends late. */
  lemma {:induction false} AtomicNeverLate(c: Config, es: seq<Event>, ss: seq<State>, i: nat)
    requires c.threshold >= 1 && IsRun(AtomicClose, c, es, ss) && i < |ss|
    ensures NoLateClose(es, ss, i) && NoTimerWhileClosing(ss[i])
  {
    if i > 0 {
      AtomicNeverLate(c, es, ss, i - 1);
      SafeExactly(AtomicClose, c, es, ss, i - 1);
      assert TimerInv(c, ss[i - 1]);
      assert IsStep(AtomicClose, c, ss, es, i - 1);
      AtomicStep(c, ss[i - 1], es[i - 1]);
    }
  }

  /** Safety of the breaker in every run in which closeProducer is one step. */
  lemma BreakerSafety(c: Config, es: seq<Event>, ss: seq<State>, i: nat)
    requires c.threshold >= 1 && IsRun(AtomicClose, c, es, ss) && i < |ss|
    ensures ss[i].breaker.Closed? ==> ss[i].failureCount < c.threshold
    ensures |ss[i].loop.halfOpenTimers| <= 1
    ensures ss[i].loop.halfOpenTimers != {} ==> ss[i].breaker.Open?
    ensures i > 0 && ss[i].breaker.HalfOpen? && !ss[i - 1].breaker.HalfOpen? ==> ss[i - 1].breaker.Open?
  {
    AtomicNeverLate(c, es, ss, i);
    SafeBeforeLateClose(AtomicClose, c, es, ss, i);
  }

  /** The threshold has to be positive: the first state already decides it. */
  lemma ThresholdDecidesSafety(c: Config)
    ensures TimerInv(c, INITIAL) <==> c.threshold >= 1
  {
  }

  // --- Attempts that do not overlap ----------------------------------------------

  predicate SerialInv(c: Config, s: State) {
    && (!c.enabled ==> s.breaker.Closed?)
    && s.loop.halfOpenTimers == Pending(s.halfOpenTimeout)
    && (s.breaker.Open? <==> s.loop.halfOpenTimers != {})
    && (s.connected ==> s.hasProducer && s.breaker.Closed?)
    && (s.loop.closes > 0 ==> s.breaker.Closed?)
    && (forall id :: id in s.loop.attempts && Active(s.loop.attempts[id]) ==>
          s.hasProducer && !s.connected && !s.breaker.Open? && s.loop.closes == 0)
    && (forall id, id' ::
          (id in s.loop.attempts && id' in s.loop.attempts &&
           Active(s.loop.attempts[id]) && Active(s.loop.attempts[id'])) ==> id == id')
  }

  lemma SerialStart(c: Config, s: State, e: Event)
    requires SerialInv(c, s) && Enabled(s, e) && Allowed(Serial, c, s, e) && Starts(e)
    ensures SerialInv(c, Next(c, s, e))
  {
  }

  lemma SerialSuccess(c: Config, s: State, e: Event)
    requires SerialInv(c, s) && Enabled(s, e) && Allowed(Serial, c, s, e) && e.ConnectOk?
    ensures SerialInv(c, Next(c, s, e))
  {
  }

  lemma SerialRetry(c: Config, s: State, e: Event)
    requires SerialInv(c, s) && Enabled(s, e) && Allowed(Serial, c, s, e) && Retries(e)
    ensures SerialInv(c, Next(c, s, e))
  {
  }

  lemma SerialFailure(c: Config, s: State, e: Event)
    requires SerialInv(c, s) && Enabled(s, e) && Allowed(Serial, c, s, e) && Fails(e)
    ensures SerialInv(c, Next(c, s, e))
  {
  }

  lemma SerialReconnect(c: Config, s: State, e: Event)
    requires SerialInv(c, s) && Enabled(s, e) && Allowed(Serial, c, s, e) && Reconnects(e)
    ensures SerialInv(c, Next(c, s, e))
  {
  }

  lemma SerialClose(c: Config, s: State, e: Event)
    requires SerialInv(c, s) && Enabled(s, e) && Allowed(Serial, c, s, e) && Closes(e)
    ensures SerialInv(c, Next(c, s, e))
  {
  }

  lemma SerialBegins(c: Config, s: State, e: Event)
    requires SerialInv(c, s) && Enabled(s, e) && BeginsConnect(c, s, e)
    ensures !s.breaker.Open?
  {
  }

  lemma SerialInvStep(c: Config, s: State, e: Event)
    requires SerialInv(c, s) && Enabled(s, e) && Allowed(Serial, c, s, e)
    ensures SerialInv(c, Next(c, s, e))
    ensures BeginsConnect(c, s, e) ==> !s.breaker.Open?
  {
    if BeginsConnect(c, s, e) {
      SerialBegins(c, s, e);
    }
    if Starts(e) {
      SerialStart(c, s, e);
    } else if e.ConnectOk? {
      SerialSuccess(c, s, e);
    } else if Retries(e) {
      SerialRetry(c, s, e);
    } else if Fails(e) {
      SerialFailure(c, s, e);
    } else if Reconnects(e) {
      SerialReconnect(c, s, e);
    } else {
      SerialClose(c, s, e);
    }
  }

  /** While the circuit stays open, the timer that half-opens it is not replaced. */
  lemma SameTimerWhileOpen(c: Config, s: State, e: Event)
    requires SerialInv(c, s) && Enabled(s, e) && Allowed(Serial, c, s, e)
    requires s.breaker.Open? && Next(c, s, e).breaker.Open?
    ensures Next(c, s, e).loop.halfOpenTimers == s.loop.halfOpenTimers
  {
    SerialInvStep(c, s, e);
  }

  lemma {:induction false} SerialInvReached(c: Config, es: seq<Event>, ss: seq<State>, i: nat)
    requires IsRun(Serial, c, es, ss) && i < |ss|
    ensures SerialInv(c, ss[i])
  {
    if i > 0 {
      SerialInvReached(c, es, ss, i - 1);
      assert IsStep(Serial, c, ss, es, i - 1);
      SerialInvStep(c, ss[i - 1], es[i - 1]);
    }
  }

  /**
   * Without overlap the circuit is open exactly while the timer that half-opens it is
   * set, and always the same timer, so it never stays open forever; and nothing connects
   * while it is open.
   */
  lemma SerialLiveness(c: Config, es: seq<Event>, ss: seq<State>, i: nat)
    requires IsRun(Serial, c, es, ss) && i < |ss|
    ensures ss[i].breaker.Open? <==> ss[i].loop.halfOpenTimers != {}
    ensures |ss[i].loop.halfOpenTimers| <= 1
    ensures i < |es| && BeginsConnect(c, ss[i], es[i]) ==> !ss[i].breaker.Open?
    ensures i < |es| && ss[i].breaker.Open? && ss[i + 1].breaker.Open? ==>
              ss[i + 1].loop.halfOpenTimers == ss[i].loop.halfOpenTimers
  {
    SerialInvReached(c, es, ss, i);
    if i < |es| {
      assert IsStep(Serial, c, ss, es, i);
      SerialInvStep(c, ss[i], es[i]);
      if ss[i].breaker.Open? && ss[i + 1].breaker.Open? {
        SameTimerWhileOpen(c, ss[i], es[i]);
      }
    }
  }

  // --- Overlap: where the circuit can get stuck ------------------------------------

  predicate OpenHasTimer(s: State) {
    s.breaker.Open? <==> s.loop.halfOpenTimers != {}
  }

  /** The step takes an open circuit's timer away, or leaves one behind on a closed circuit. */
  predicate Unarms(c: Config, s: State, e: Event) {
    s.breaker.Open? &&
    match e
    case ConnectOk(_) => c.enabled                     // a late success clears the timer
    case CloseBegin => s.hasProducer && s.connected    // so does a close that has yet to disconnect
    case CloseEnd => true                              // a close resets the circuit, not the timer set since
    case _ => false
  }

  /** The circuit is safe, and open exactly while its timer is set. */
  predicate Armed(c: Config, s: State) {
    TimerInv(c, s) && OpenHasTimer(s)
  }

  /** Exactly which steps separate an open circuit from its timer, whatever overlaps. */
  lemma UnarmsExactly(c: Config, s: State, e: Event)
    requires c.threshold >= 1 && Armed(c, s) && Enabled(s, e)
    ensures OpenHasTimer(Next(c, s, e)) <==> !Unarms(c, s, e)
    ensures Armed(c, Next(c, s, e)) <==> !Unarms(c, s, e)
  {
    if s.breaker.Open? {
      var h :| h in s.loop.halfOpenTimers;
      assert s.halfOpenTimeout == Some(h);
    }
    TimerStep(c, s, e);
  }

  /** Whatever overlaps, a run keeps every open circuit armed exactly while no step unarms one. */
  lemma {:induction false} ArmedExactly(d: Discipline, c: Config, es: seq<Event>, ss: seq<State>, i: nat)
    requires c.threshold >= 1 && IsRun(d, c, es, ss) && i < |ss|
    ensures (forall j :: 0 <= j <= i ==> Armed(c, ss[j])) <==> (forall k :: 0 <= k < i ==> !Unarms(c, ss[k], es[k]))
  {
    if i > 0 {
      ArmedExactly(d, c, es, ss, i - 1);
      assert IsStep(d, c, ss, es, i - 1);
      if Armed(c, ss[i - 1]) {
        UnarmsExactly(c, ss[i - 1], es[i - 1]);
      }
    }
  }

  /** The state in which every later getProducer call is blocked and nothing unblocks it. */
  predicate Stuck(c: Config, s: State) {
    c.enabled && s.breaker.Open? && s.loop.halfOpenTimers == {}
  }

  /** Only closeProducer leads out of it. */
  lemma StuckUntilClosed(c: Config, s: State, e: Event)
    requires Stuck(c, s) && Enabled(s, e)
    ensures !StartsAttempt(c, s, e)
    ensures !Stuck(c, Next(c, s, e)) <==> e.CloseEnd? || (e.CloseBegin? && !(s.hasProducer && s.connected))
  {
    if s.halfOpenTimeout.Some? {
      assert s.loop.halfOpenTimers - {s.halfOpenTimeout.value} == {};
    }
  }

  lemma RunExtends(d: Discipline, c: Config, es: seq<Event>, ss: seq<State>, e: Event)
    requires IsRun(d, c, es, ss) && Enabled(ss[|es|], e) && Allowed(d, c, ss[|es|], e)
    ensures IsRun(d, c, es + [e], ss + [Next(c, ss[|es|], e)])
  {
    var es', ss' := es + [e], ss + [Next(c, ss[|es|], e)];
    forall i | 0 <= i < |es'| ensures IsStep(d, c, ss', es', i) {
      assert i < |es| ==> IsStep(d, c, ss, es, i);
    }
  }

  /** A run that ends in a given state. */
  ghost predicate Reaches(d: Discipline, c: Config, s: State) {
    exists es, ss :: IsRun(d, c, es, ss) && ss[|es|] == s
  }

  lemma InitialReached(d: Discipline, c: Config)
    ensures Reaches(d, c, INITIAL)
  {
    assert IsRun(d, c, [], [INITIAL]);
  }

  lemma ReachesNext(d: Discipline, c: Config, s: State, e: Event)
    requires Reaches(d, c, s) && Enabled(s, e) && Allowed(d, c, s, e)
    ensures Reaches(d, c, Next(c, s, e))
  {
    var es, ss :| IsRun(d, c, es, ss) && ss[|es|] == s;
    RunExtends(d, c, es, ss, e);
    assert (ss + [Next(c, s, e)])[|es + [e]|] == Next(c, s, e);
  }

  /** Two calls of getProducer that are connecting at the same time. */
  lemma TwoConnecting(d: Discipline, c: Config) returns (s: State)
    requires !d.Serial? && c.maxRetries == 1
    ensures Reaches(d, c, s)
    ensures s == INITIAL.(hasProducer := true,
                          loop := INITIAL.loop.(
                            attempts := map[1 := Attempt(1, Connecting, false), 2 := Attempt(1, Connecting, false)]))
  {
    InitialReached(d, c);
    ReachesNext(d, c, INITIAL, Call(1, true));
    s := Next(c, INITIAL, Call(1, true));
    ReachesNext(d, c, s, Call(2, true));
    s := Next(c, s, Call(2, true));
  }

  /** Two overlapping calls get stuck: the first fails and opens the circuit, the second succeeds. */
  lemma OverlapGetsStuck() returns (c: Config, s: State)
    ensures c.threshold >= 1 && Reaches(AtomicClose, c, s) && Stuck(c, s)
  {
    c := Config(true, 1, 1);
    s := TwoConnecting(AtomicClose, c);
    ReachesNext(AtomicClose, c, s, ConnectFails(1));
    s := Next(c, s, ConnectFails(1));
    ReachesNext(AtomicClose, c, s, Settle(1));
    s := Next(c, s, Settle(1));
    ReachesNext(AtomicClose, c, s, ConnectOk(2));
    s := Next(c, s, ConnectOk(2));
  }

  /**
   * A close that fails gets stuck too, with no connect succeeding while the circuit is
   * open: it has cleared the timer before disconnect() rejects.
   */
  lemma FailedCloseGetsStuck() returns (c: Config, s: State)
    ensures c.threshold >= 1 && Reaches(AtomicClose, c, s) && Stuck(c, s)
  {
    c := Config(true, 1, 1);
    s := OpenWhileConnected(AtomicClose, c);
    ReachesNext(AtomicClose, c, s, CloseBegin);
    s := Next(c, s, CloseBegin);
    ReachesNext(AtomicClose, c, s, CloseThrows);
    s := Next(c, s, CloseThrows);
  }

  /** Of two overlapping calls one connects, then the other fails and opens the circuit. */
  lemma OpenWhileConnected(d: Discipline, c: Config) returns (s: State)
    requires !d.Serial? && c == Config(true, 1, 1)
    ensures Reaches(d, c, s)
    ensures s.breaker.Open? && s.hasProducer && s.connected && s.loop.closes == 0
    ensures s.halfOpenTimeout == Some(0) && s.loop.halfOpenTimers == {0} && s.reconnectTimeout == None
  {
    s := TwoConnecting(d, c);
    ReachesNext(d, c, s, ConnectOk(2));
    s := Next(c, s, ConnectOk(2));
    ReachesNext(d, c, s, ConnectFails(1));
    s := Next(c, s, ConnectFails(1));
    ReachesNext(d, c, s, Settle(1));
    s := Next(c, s, Settle(1));
  }

  /** A failure while closeProducer disconnects leaves a timer behind that half-opens a closed circuit. */
  lemma OverlappingCloseLeavesTimer() returns (c: Config, s: State)
    ensures c.threshold >= 1 && Reaches(Anything, c, s)
    ensures s.breaker.Closed? && s.loop.halfOpenTimers != {}
  {
    c := Config(true, 1, 1);
    s := TwoConnecting(Anything, c);
    ReachesNext(Anything, c, s, ConnectOk(1));
    s := Next(c, s, ConnectOk(1));
    ReachesNext(Anything, c, s, CloseBegin);
    s := Next(c, s, CloseBegin);
    ReachesNext(Anything, c, s, ConnectFails(2));
    s := Next(c, s, ConnectFails(2));
    ReachesNext(Anything, c, s, Settle(2));
    s := Next(c, s, Settle(2));
    assert s.loop.halfOpenTimers == {0};
    ReachesNext(Anything, c, s, CloseEnd);
    s := Next(c, s, CloseEnd);
  }

  // --- Automatic reconnect, however much overlaps ------------------------------------

  predicate ReconnectInv(s: State) {
    && s.loop.reconnectTimers == Pending(s.reconnectTimeout)
    && s.reconnectAttempts <= MAX_RECONNECT_ATTEMPTS
  }

  /** The step sets a reconnect timer. */
  predicate Schedules(s: State, s': State) {
    !(s'.loop.reconnectTimers <= s.loop.reconnectTimers)
  }

  lemma ReconnectTimerStep(c: Config, s: State, e: Event)
    requires ReconnectInv(s) && Enabled(s, e) && (Starts(e) || Reconnects(e))
    ensures ReconnectInv(Next(c, s, e))
    ensures Next(c, s, e).reconnectAttempts == s.reconnectAttempts + if Schedules(s, Next(c, s, e)) then 1 else 0
  {
  }

  lemma ReconnectStep(c: Config, s: State, e: Event)
    requires ReconnectInv(s) && Enabled(s, e)
    ensures ReconnectInv(Next(c, s, e))
    ensures !e.ConnectOk? ==>
              Next(c, s, e).reconnectAttempts == s.reconnectAttempts + if Schedules(s, Next(c, s, e)) then 1 else 0
  {
    if Starts(e) || Reconnects(e) {
      ReconnectTimerStep(c, s, e);
    }
  }

  lemma {:induction false} ReconnectReached(d: Discipline, c: Config, es: seq<Event>, ss: seq<State>, i: nat)
    requires IsRun(d, c, es, ss) && i < |ss|
    ensures ReconnectInv(ss[i])
  {
    if i > 0 {
      ReconnectReached(d, c, es, ss, i - 1);
      assert IsStep(d, c, ss, es, i - 1);
      ReconnectStep(c, ss[i - 1], es[i - 1]);
    }
  }

  /** How many steps from `i` to `j` set a reconnect timer. */
  ghost function Scheduled(ss: seq<State>, i: nat, j: nat): nat
    requires i <= j < |ss|
  {
    if i == j then 0 else Scheduled(ss, i, j - 1) + if Schedules(ss[j - 1], ss[j]) then 1 else 0
  }

  lemma {:induction false} AttemptsCountSchedules(
    d: Discipline, c: Config, es: seq<Event>, ss: seq<State>, i: nat, j: nat)
    requires IsRun(d, c, es, ss) && i <= j < |ss|
    requires forall k :: i <= k < j ==> !es[k].ConnectOk?
    ensures ss[j].reconnectAttempts == ss[i].reconnectAttempts + Scheduled(ss, i, j)
  {
    if i < j {
      AttemptsCountSchedules(d, c, es, ss, i, j - 1);
      ReconnectReached(d, c, es, ss, j - 1);
      assert IsStep(d, c, ss, es, j - 1);
      ReconnectStep(c, ss[j - 1], es[j - 1]);
    }
  }

  /** At most one reconnect timer, and at most ten set between two successful connects. */
  lemma ReconnectsBounded(d: Discipline, c: Config, es: seq<Event>, ss: seq<State>, i: nat, j: nat)
    requires IsRun(d, c, es, ss) && i <= j < |ss|
    requires forall k :: i <= k < j ==> !es[k].ConnectOk?
    ensures |ss[j].loop.reconnectTimers| <= 1
    ensures Scheduled(ss, i, j) <= MAX_RECONNECT_ATTEMPTS
  {
    AttemptsCountSchedules(d, c, es, ss, i, j);
    ReconnectReached(d, c, es, ss, j);
  }

  /**
   * After closeProducer starts, no reconnect is scheduled or fires until getProducer is
   * called, even if a reconnect was under way.
   */
  lemma {:induction false} CloseStopsReconnects(
    d: Discipline, c: Config, es: seq<Event>, ss: seq<State>, i: nat, j: nat)
    requires IsRun(d, c, es, ss) && i < j < |ss|
    requires es[i].CloseBegin? && forall k :: i < k < j ==> !es[k].Call?
    ensures ss[j].isClosing && ss[j].loop.reconnectTimers == {}
    ensures forall k :: i < k < j ==> !es[k].ReconnectFires?
  {
    assert IsStep(d, c, ss, es, j - 1);
    if i + 1 == j {
      ReconnectReached(d, c, es, ss, i);
    } else {
      CloseStopsReconnects(d, c, es, ss, i, j - 1);
      assert !es[j - 1].ReconnectFires?;
    }
  }

  /** A disconnect or a failed reconnect sets a reconnect timer, unless something forbids it; nothing else does. */
  lemma SchedulesExactly(c: Config, s: State, e: Event)
    requires ReconnectInv(s) && Enabled(s, e)
    ensures Schedules(s, Next(c, s, e)) <==>
              && (e.Disconnected? || e.Catch?)
              && !s.isClosing && s.hasProducer && s.loop.reconnectTimers == {} && s.reconnectAttempts < 10
  {
    if Starts(e) || Reconnects(e) {
      SchedulesOnlyHere(c, s, e);
    }
  }

  lemma SchedulesOnlyHere(c: Config, s: State, e: Event)
    requires ReconnectInv(s) && Enabled(s, e) && (Starts(e) || Reconnects(e))
    ensures Schedules(s, Next(c, s, e)) <==>
              && Reconnects(e)
              && !s.isClosing && s.hasProducer && s.loop.reconnectTimers == {} && s.reconnectAttempts < 10
  {
  }

  /** The counter of reconnects: back to 0 with a success, up by one with a timer, else as it was. */
  lemma AttemptsExactly(c: Config, s: State, e: Event)
    requires ReconnectInv(s) && Enabled(s, e)
    ensures Next(c, s, e).reconnectAttempts ==
            if e.ConnectOk? then 0
            else s.reconnectAttempts + if Schedules(s, Next(c, s, e)) then 1 else 0
  {
    ReconnectStep(c, s, e);
  }

  // --- What every step does to the fields ----------------------------------------------

  /** The step ends closeProducer: at once, when there is nothing to disconnect, or after the disconnect. */
  predicate CloseCompletes(s: State, e: Event) {
    e.CloseEnd? || (e.CloseBegin? && !(s.hasProducer && s.connected))
  }

  /** getProducer is entered: by a caller, or by a reconnect timer with a producer and no close. */
  predicate Enters(s: State, e: Event) {
    e.Call? || (e.ReconnectFires? && !s.isClosing && s.hasProducer)
  }

  /** It goes on to connect: neither is the circuit open nor is there a connected producer. */
  predicate GoesOn(c: Config, s: State, e: Event) {
    Enters(s, e) && !(c.enabled && s.breaker.Open?) && !(s.hasProducer && s.connected)
  }

  /** It fails: all tries are used up, or the configuration is invalid. */
  predicate AttemptFails(c: Config, s: State, e: Event) {
    || e.Settle?
    || (GoesOn(c, s, e) && ((e.Call? && !e.configOk) || (e.ReconnectFires? && !e.configOk)))
  }

  /** The failure count: one more with each failed attempt, none after a success or a close. */
  lemma FailureCountExactly(c: Config, s: State, e: Event)
    requires Enabled(s, e)
    ensures Next(c, s, e).failureCount ==
            if CloseCompletes(s, e) || (e.ConnectOk? && c.enabled) then 0
            else if c.enabled && AttemptFails(c, s, e) then s.failureCount + 1
            else s.failureCount
  {
  }

  /** The circuit opens exactly with a failure that reaches the threshold, or any failure when half open. */
  lemma OpensExactly(c: Config, s: State, e: Event)
    requires Enabled(s, e) && !s.breaker.Open?
    ensures Next(c, s, e).breaker.Open? <==>
              && c.enabled && AttemptFails(c, s, e)
              && (s.breaker.HalfOpen? || s.failureCount + 1 >= c.threshold)
  {
  }

  /** The circuit half-opens exactly with a half-open timer. */
  lemma HalfOpensExactly(c: Config, s: State, e: Event)
    requires Enabled(s, e) && !s.breaker.HalfOpen?
    ensures Next(c, s, e).breaker.HalfOpen? <==> e.HalfOpenFires?
  {
  }

  /** A circuit closes exactly with a close of the producer, or from half open with a success. */
  lemma ClosesExactly(c: Config, s: State, e: Event)
    requires Enabled(s, e) && !s.breaker.Closed?
    ensures Next(c, s, e).breaker.Closed? <==>
              CloseCompletes(s, e) || (s.breaker.HalfOpen? && c.enabled && e.ConnectOk?)
  {
  }

  /** The producer handle, and whether it is connected. */
  lemma ProducerExactly(c: Config, s: State, e: Event)
    requires Enabled(s, e)
    ensures Next(c, s, e).hasProducer <==>
              !CloseCompletes(s, e) && (s.hasProducer || (GoesOn(c, s, e) && !AttemptFails(c, s, e)))
    ensures Next(c, s, e).connected <==>
              e.ConnectOk? || (s.connected && !e.CloseEnd? && !(e.Disconnected? && !s.isClosing))
  {
  }

  /** A close lasts until getProducer is entered again. */
  lemma ClosingExactly(c: Config, s: State, e: Event)
    requires Enabled(s, e)
    ensures Next(c, s, e).isClosing <==> e.CloseBegin? || (s.isClosing && !Enters(s, e))
  {
  }

  lemma LoopKept(c: Config, s: State, e: Event)
    requires Enabled(s, e) && (Starts(e) || Fails(e) || Reconnects(e))
    ensures Next(c, s, e).loop.listeners == s.loop.listeners && Next(c, s, e).loop.closes == s.loop.closes
  {
  }

  lemma LoopChanged(c: Config, s: State, e: Event)
    requires Enabled(s, e) && (e.ConnectOk? || Retries(e) || Closes(e))
    ensures Next(c, s, e).loop.listeners == s.loop.listeners + if e.Listen? && s.hasProducer then 1 else 0
    ensures Next(c, s, e).loop.closes ==
            s.loop.closes + (if e.CloseBegin? && s.hasProducer && s.connected then 1 else 0)
                          - (if e.CloseEnd? || e.CloseThrows? then 1 else 0)
  {
  }

  /** Listeners are added by attempts that keep their producer; closes are under way until they disconnect or throw. */
  lemma LoopExactly(c: Config, s: State, e: Event)
    requires Enabled(s, e)
    ensures Next(c, s, e).loop.listeners == s.loop.listeners + if e.Listen? && s.hasProducer then 1 else 0
    ensures Next(c, s, e).loop.closes ==
            s.loop.closes + (if e.CloseBegin? && s.hasProducer && s.connected then 1 else 0)
                          - (if e.CloseEnd? || e.CloseThrows? then 1 else 0)
  {
    if Starts(e) || Fails(e) || Reconnects(e) {
      LoopKept(c, s, e);
    } else {
      LoopChanged(c, s, e);
    }
  }

  /** What becomes of a call of getProducer: the first try, or the caller's or the reconnect's failure. */
  lemma AttemptBegins(c: Config, s: State, e: Event)
    requires Enabled(s, e) && Starts(e)
    ensures forall id :: id != e.id ==>
              (id in Next(c, s, e).loop.attempts <==> id in s.loop.attempts)
              && (id in s.loop.attempts ==> Next(c, s, e).loop.attempts[id] == s.loop.attempts[id])
    ensures GoesOn(c, s, e) && e.configOk ==>
              && e.id in Next(c, s, e).loop.attempts
              && Next(c, s, e).loop.attempts[e.id]
                 == (if c.maxRetries == 0 then Attempt(0, Exhausted, e.ReconnectFires?)
                     else Attempt(1, Connecting, e.ReconnectFires?))
    ensures !(GoesOn(c, s, e) && e.configOk) ==>
              (e.id in Next(c, s, e).loop.attempts <==>
                 e.ReconnectFires? && Enters(s, e) && ((c.enabled && s.breaker.Open?) || GoesOn(c, s, e)))
    ensures e.id in Next(c, s, e).loop.attempts && !(GoesOn(c, s, e) && e.configOk) ==>
              Next(c, s, e).loop.attempts[e.id].phase == Rejected
  {
  }

  /** How an attempt goes on: it connects, or tries again up to maxRetries times, and then fails. */
  lemma AttemptGoesOn(c: Config, s: State, e: Event)
    requires Enabled(s, e) && (e.ConnectOk? || e.ConnectFails? || e.Wake? || e.Settle? || e.Listen? || e.Catch?)
    ensures var a, after := s.loop.attempts[e.id], Next(c, s, e).loop.attempts;
            match e
            case ConnectOk(id) => id in after && after[id] == a.(phase := Connected)
            case ConnectFails(id) =>
              id in after && after[id] == a.(phase := if a.tries < c.maxRetries then Sleeping else Exhausted)
            case Wake(id) =>
              && id in after && after[id].tries == a.tries + 1 && after[id].reconnect == a.reconnect
              && after[id].phase == (if s.hasProducer then Connecting
                                     else if a.tries + 1 < c.maxRetries then Sleeping else Exhausted)
            case Settle(id) => if a.reconnect then id in after && after[id].phase == Rejected else id !in after
            case _ => e.id !in after
  {
  }

  predicate TriesOk(c: Config, a: Attempt) {
    && a.tries <= c.maxRetries
    && (a.phase.Exhausted? ==> a.tries == c.maxRetries)
    && (a.phase.Sleeping? ==> a.tries < c.maxRetries)
    && (a.phase.Connecting? ==> a.tries >= 1)
  }

  predicate TriesInv(c: Config, s: State) {
    forall id :: id in s.loop.attempts ==> TriesOk(c, s.loop.attempts[id])
  }

  lemma TriesStart(c: Config, s: State, e: Event)
    requires TriesInv(c, s) && Enabled(s, e) && Starts(e)
    ensures TriesInv(c, Next(c, s, e))
  {
  }

  lemma TriesGoOn(c: Config, s: State, e: Event)
    requires TriesInv(c, s) && Enabled(s, e) && (e.ConnectOk? || e.ConnectFails? || e.Wake?)
    ensures TriesInv(c, Next(c, s, e))
  {
    assert TriesOk(c, s.loop.attempts[e.id]);
  }

  lemma TriesRest(c: Config, s: State, e: Event)
    requires TriesInv(c, s) && Enabled(s, e) && !Starts(e) && !(e.ConnectOk? || e.ConnectFails? || e.Wake?)
    ensures TriesInv(c, Next(c, s, e))
  {
  }

  /** In every run an attempt gives up only after exactly maxRetries tries, and never makes more. */
  lemma {:induction false} TriesBounded(d: Discipline, c: Config, es: seq<Event>, ss: seq<State>, i: nat)
    requires IsRun(d, c, es, ss) && i < |ss|
    ensures TriesInv(c, ss[i])
  {
    if i > 0 {
      TriesBounded(d, c, es, ss, i - 1);
      assert IsStep(d, c, ss, es, i - 1);
      if Starts(es[i - 1]) {
        TriesStart(c, ss[i - 1], es[i - 1]);
      } else if es[i - 1].ConnectOk? || es[i - 1].ConnectFails? || es[i - 1].Wake? {
        TriesGoOn(c, ss[i - 1], es[i - 1]);
      } else {
        TriesRest(c, ss[i - 1], es[i - 1]);
      }
    }
  }

  // --- The manager ---------------------------------------------------------------------

  class KafkaClientManager {
    const config: Config
    var circuitBreakerState: Breaker
    var circuitBreakerFailureCount: nat
    var circuitBreakerHalfOpenTimeout: Option<nat>
    var producerInstance: bool
    var isProducerConnected: bool
    var reconnectTimeout: Option<nat>
    var isClosing: bool
    var reconnectAttempts: nat
    var loop: Loop

    function View(): State
      reads this
    {
      State(circuitBreakerState, circuitBreakerFailureCount, circuitBreakerHalfOpenTimeout, producerInstance,
            isProducerConnected, reconnectTimeout, isClosing, reconnectAttempts, loop)
    }

    constructor (config: Config)
      ensures this.config == config && View() == INITIAL
    {
      this.config := config;
      circuitBreakerState, circuitBreakerFailureCount, circuitBreakerHalfOpenTimeout := Closed, 0, None;
      producerInstance, isProducerConnected, reconnectTimeout := false, false, None;
      isClosing, reconnectAttempts := false, 0;
      loop := INITIAL.loop;
    }

    method ClearHalfOpenTimeout()
      modifies this
      ensures View() == ClearHalfOpen(old(View()))
    {
      if circuitBreakerHalfOpenTimeout.Some? {
        loop := loop.(halfOpenTimers := loop.halfOpenTimers - {circuitBreakerHalfOpenTimeout.value});
        circuitBreakerHalfOpenTimeout := None;
      }
    }

    method HandleCircuitBreakerSuccess()
      modifies this
      ensures View() == BreakerSuccess(config, old(View()))
    {
      if !config.enabled { return; }
      if circuitBreakerState.HalfOpen? {
        circuitBreakerState := Closed;
      }
      circuitBreakerFailureCount := 0;
      ClearHalfOpenTimeout();
    }

    method HandleCircuitBreakerFailure()
      modifies this
      ensures View() == BreakerFailure(config, old(View()))
    {
      if !config.enabled { return; }
      circuitBreakerFailureCount := circuitBreakerFailureCount + 1;
      if circuitBreakerState.Closed? && circuitBreakerFailureCount >= config.threshold {
        circuitBreakerState := Open;
        SetHalfOpenTimeout();
      } else if circuitBreakerState.HalfOpen? {
        circuitBreakerState := Open;
        SetHalfOpenTimeout();
      }
    }

    method SetHalfOpenTimeout()
      requires circuitBreakerState.Open?
      modifies this
      ensures View() == OpenCircuit(old(View()))
    {
      var handle := loop.nextHandle;
      circuitBreakerHalfOpenTimeout := Some(handle);
      loop := loop.(halfOpenTimers := loop.halfOpenTimers + {handle}, nextHandle := handle + 1);
    }

    method SetAttempt(id: nat, a: Attempt)
      modifies this
      ensures View() == PutAttempt(old(View()), id, a)
    {
      loop := loop.(attempts := loop.attempts[id := a]);
    }

    method EndAttempt(id: nat)
      modifies this
      ensures View() == DropAttempt(old(View()), id)
    {
      loop := loop.(attempts := loop.attempts - {id});
    }

    method RejectCall(id: nat, tries: nat, reconnect: bool)
      modifies this
      ensures View() == Reject(old(View()), id, tries, reconnect)
    {
      if reconnect {
        SetAttempt(id, Attempt(tries, Rejected, true));
      } else {
        EndAttempt(id);
      }
    }

    method StartGetProducer(id: nat, configOk: bool, reconnect: bool)
      modifies this
      ensures View() == GetProducer(config, old(View()), id, configOk, reconnect)
    {
      isClosing := false;
      if config.enabled && circuitBreakerState.Open? {
        RejectCall(id, 0, reconnect);
        return;
      }
      if producerInstance && isProducerConnected {
        return;
      }
      if !configOk {
        HandleCircuitBreakerFailure();
        RejectCall(id, 0, reconnect);
        return;
      }
      if !producerInstance {
        producerInstance := true;
      }
      if config.maxRetries == 0 {
        SetAttempt(id, Attempt(0, Exhausted, reconnect));
      } else {
        SetAttempt(id, Attempt(1, Connecting, reconnect));
      }
    }

    method OnFailedTry(id: nat, a: Attempt)
      modifies this
      ensures View() == AfterFailedTry(config, old(View()), id, a)
    {
      if a.tries < config.maxRetries {
        SetAttempt(id, a.(phase := Sleeping));
      } else {
        SetAttempt(id, a.(phase := Exhausted));
      }
    }

    method DoScheduleReconnect()
      modifies this
      ensures View() == ScheduleReconnect(old(View()))
    {
      if isClosing || !producerInstance { return; }
      if reconnectTimeout.Some? { return; }
      if reconnectAttempts >= MAX_RECONNECT_ATTEMPTS { return; }
      reconnectAttempts := reconnectAttempts + 1;
      var handle := loop.nextHandle;
      reconnectTimeout := Some(handle);
      loop := loop.(reconnectTimers := loop.reconnectTimers + {handle}, nextHandle := handle + 1);
    }

    method OnReconnectTimer(handle: nat, id: nat, configOk: bool)
      requires Enabled(View(), ReconnectFires(handle, id, configOk))
      modifies this
      ensures View() == Next(config, old(View()), ReconnectFires(handle, id, configOk))
    {
      loop := loop.(reconnectTimers := loop.reconnectTimers - {handle});
      reconnectTimeout := None;
      if isClosing || !producerInstance { return; }
      StartGetProducer(id, configOk, true);
    }

    method OnConnected(id: nat)
      requires Enabled(View(), ConnectOk(id))
      modifies this
      ensures View() == Next(config, old(View()), ConnectOk(id))
    {
      SetAttempt(id, loop.attempts[id].(phase := Connected));
      isProducerConnected := true;
      reconnectAttempts := 0;
      HandleCircuitBreakerSuccess();
    }

    method OnWake(id: nat)
      requires Enabled(View(), Wake(id))
      modifies this
      ensures View() == Next(config, old(View()), Wake(id))
    {
      var a := loop.attempts[id];
      a := a.(tries := a.tries + 1);
      if producerInstance {
        SetAttempt(id, a.(phase := Connecting));
      } else {
        OnFailedTry(id, a);
      }
    }

    method CloseProducerBegin()
      modifies this
      ensures View() == Next(config, old(View()), CloseBegin)
    {
      isClosing := true;
      if reconnectTimeout.Some? {
        loop := loop.(reconnectTimers := loop.reconnectTimers - {reconnectTimeout.value});
        reconnectTimeout := None;
      }
      ClearHalfOpenTimeout();
      if producerInstance && isProducerConnected {
        loop := loop.(closes := loop.closes + 1);
      } else {
        CloseProducerRest();
      }
    }

    method CloseProducerRest()
      modifies this
      ensures View() == CloseFinish(old(View()))
    {
      producerInstance := false;
      circuitBreakerState := Closed;
      circuitBreakerFailureCount := 0;
    }

    /** One turn of the runtime. */
    method Handle(e: Event)
      requires Enabled(View(), e)
      modifies this
      ensures View() == Next(config, old(View()), e)
    {
      match e {
        case Call(id, configOk) =>
          StartGetProducer(id, configOk, false);
        case ReconnectFires(handle, id, configOk) =>
          OnReconnectTimer(handle, id, configOk);
        case ConnectOk(id) =>
          OnConnected(id);
        case ConnectFails(id) =>
          OnFailedTry(id, loop.attempts[id]);
        case Wake(id) =>
          OnWake(id);
        case Settle(id) =>
          var a := loop.attempts[id];
          HandleCircuitBreakerFailure();
          RejectCall(id, a.tries, a.reconnect);
        case Listen(id) =>
          EndAttempt(id);
          if producerInstance {
            loop := loop.(listeners := loop.listeners + 1);
          }
        case Catch(id) =>
          EndAttempt(id);
          DoScheduleReconnect();
        case HalfOpenFires(handle) =>
          loop := loop.(halfOpenTimers := loop.halfOpenTimers - {handle});
          circuitBreakerState := HalfOpen;
          circuitBreakerHalfOpenTimeout := None;
        case Disconnected =>
          if !isClosing {
            isProducerConnected := false;
            DoScheduleReconnect();
          }
        case CloseBegin =>
          CloseProducerBegin();
        case CloseEnd =>
          loop := loop.(closes := loop.closes - 1);
          isProducerConnected := false;
          CloseProducerRest();
        case CloseThrows =>
          loop := loop.(closes := loop.closes - 1);
      }
    }
  }
}

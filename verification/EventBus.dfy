/**
 * Topic names and batch publishing (packages/events/src/event-bus.ts).
 */
module EventBus {
  import opened Wrappers
  import opened Text

  // --- Event types and topics ---------------------------------------------------------

  predicate IsLetter(c: char) {
    'a' <= c <= 'z'
  }

  predicate IsUpper(c: char) {
    'A' <= c <= 'Z'
  }

  predicate IsLetterOrDigit(c: char) {
    IsLetter(c) || IsDigit(c)
  }

  function RunLength(s: string): (n: nat)
    ensures n <= |s|
    ensures forall i :: 0 <= i < n ==> IsLetterOrDigit(s[i])
    ensures n < |s| ==> !IsLetterOrDigit(s[n])
  {
    if s != "" && IsLetterOrDigit(s[0]) then 1 + RunLength(s[1..]) else 0
  }

  /** [a-z][a-z0-9]* as a whole string. */
  predicate IsSegment(s: string) {
    s != "" && IsLetter(s[0]) && RunLength(s) == |s|
  }

  /** The pattern ^[a-z][a-z0-9]*(\.[a-z][a-z0-9]*)+$ */
  predicate ValidEventType(s: string)
    decreases |s|
  {
    var n := RunLength(s);
    && 0 < n < |s| && IsLetter(s[0]) && s[n] == '.'
    && (IsSegment(s[n + 1..]) || ValidEventType(s[n + 1..]))
  }

  function ReplaceChar(s: string, from: char, to: char): (r: string)
    ensures |r| == |s|
    ensures forall i :: 0 <= i < |s| ==> r[i] == if s[i] == from then to else s[i]
  {
    seq(|s|, i requires 0 <= i < |s| => if s[i] == from then to else s[i])
  }

  type Lowering = string -> string

  function LowerChar(c: char): char {
    if IsUpper(c) then c - 'A' + 'a' else c
  }

  function LowerAscii(s: string): (r: string)
    ensures |r| == |s|
    ensures forall i :: 0 <= i < |s| ==> r[i] == LowerChar(s[i])
  {
    seq(|s|, i requires 0 <= i < |s| => LowerChar(s[i]))
  }

  predicate IsAscii(s: string) {
    forall i :: 0 <= i < |s| ==> s[i] as int < 0x80
  }

  /** The character is left alone by lower-casing. */
  predicate NoCapital(lower: Lowering, c: char) {
    lower([c]) == [c]
  }

  predicate NoCapitals(lower: Lowering, s: string) {
    forall i :: 0 <= i < |s| ==> NoCapital(lower, s[i])
  }

  /**
   * What is used of String.prototype.toLowerCase: ASCII letters, that a string is left
   * alone exactly when all its characters are, and that it makes up no dot.
   */
  ghost predicate LowerCases(lower: Lowering) {
    && (forall s :: IsAscii(s) ==> lower(s) == LowerAscii(s))
    && (forall s :: lower(s) == s <==> NoCapitals(lower, s))
    && (forall s :: '.' !in s ==> '.' !in lower(s))
  }

  /** The topic an event is published on. */
  function TopicFromEventType(lower: Lowering, eventType: string): string {
    lower(ReplaceChar(eventType, '.', '-'))
  }

  /** The topic a handler for the event type is registered on (events.module.ts). */
  function RegisteredTopic(eventType: string): string {
    ReplaceChar(eventType, '.', '-')
  }

  lemma {:induction false} ValidChars(s: string, i: nat)
    requires (ValidEventType(s) || IsSegment(s)) && i < |s|
    ensures IsLetterOrDigit(s[i]) || s[i] == '.'
    decreases |s|
  {
    var n := RunLength(s);
    if i > n {
      ValidChars(s[n + 1..], i - n - 1);
    }
  }

  lemma AsciiCapital(lower: Lowering, c: char)
    requires LowerCases(lower) && c as int < 0x80
    ensures NoCapital(lower, c) <==> !IsUpper(c)
  {
    assert IsAscii([c]);
    assert lower([c])[0] == LowerChar(c);
  }

  /** Publisher and handler agree on the topic exactly when lower-casing leaves every character of the type alone. */
  lemma PublisherMeetsHandler(lower: Lowering, eventType: string)
    requires LowerCases(lower)
    ensures TopicFromEventType(lower, eventType) == RegisteredTopic(eventType) <==> NoCapitals(lower, eventType)
  {
    var topic := RegisteredTopic(eventType);
    AsciiCapital(lower, '-');
    AsciiCapital(lower, '.');
    forall i | 0 <= i < |eventType| ensures NoCapital(lower, topic[i]) <==> NoCapital(lower, eventType[i]) {
    }
  }

  lemma RegisteredInverse(eventType: string)
    requires '-' !in eventType
    ensures ReplaceChar(RegisteredTopic(eventType), '-', '.') == eventType
  {
    forall i | 0 <= i < |eventType| ensures ReplaceChar(RegisteredTopic(eventType), '-', '.')[i] == eventType[i] {
      assert eventType[i] in eventType;
    }
  }

  /** For any event type at all: when does replacing '-' by '.' give it back? */
  lemma TopicInverse(lower: Lowering, eventType: string)
    requires LowerCases(lower)
    ensures ReplaceChar(TopicFromEventType(lower, eventType), '-', '.') == eventType
       <==> '-' !in eventType && NoCapitals(lower, eventType)
  {
    var registered, topic := RegisteredTopic(eventType), TopicFromEventType(lower, eventType);
    var back := ReplaceChar(topic, '-', '.');
    PublisherMeetsHandler(lower, eventType);
    if '-' !in eventType {
      RegisteredInverse(eventType);
    }
    if back == eventType {
      assert '.' !in registered && '.' !in topic;
      forall i | 0 <= i < |topic| ensures topic[i] == registered[i] {
        assert back[i] == eventType[i] && topic[i] in topic;
      }
      assert topic == registered;
    }
  }

  lemma ValidHasNoCapitals(lower: Lowering, eventType: string)
    requires LowerCases(lower) && ValidEventType(eventType)
    ensures '-' !in eventType && NoCapitals(lower, eventType)
  {
    forall i | 0 <= i < |eventType| ensures eventType[i] != '-' && NoCapital(lower, eventType[i]) {
      ValidChars(eventType, i);
      AsciiCapital(lower, eventType[i]);
    }
  }

  /** Accepted event types: the topic determines the type, and publisher and handlers meet. */
  lemma ValidTopics(lower: Lowering, a: string, b: string)
    requires LowerCases(lower) && ValidEventType(a) && ValidEventType(b)
    ensures ReplaceChar(TopicFromEventType(lower, a), '-', '.') == a
    ensures TopicFromEventType(lower, a) == TopicFromEventType(lower, b) ==> a == b
    ensures TopicFromEventType(lower, a) == RegisteredTopic(a)
  {
    ValidHasNoCapitals(lower, a);
    ValidHasNoCapitals(lower, b);
    TopicInverse(lower, a);
    TopicInverse(lower, b);
    PublisherMeetsHandler(lower, a);
  }

  /** Without the validation, an event type shares its topic with its hyphenated and its lower-case form. */
  lemma UnvalidatedTopicsCollide(lower: Lowering, eventType: string)
    requires LowerCases(lower)
    ensures TopicFromEventType(lower, eventType) == TopicFromEventType(lower, RegisteredTopic(eventType))
    ensures IsAscii(eventType) ==>
              TopicFromEventType(lower, eventType) == TopicFromEventType(lower, LowerAscii(eventType))
  {
    assert RegisteredTopic(RegisteredTopic(eventType)) == RegisteredTopic(eventType);
    if IsAscii(eventType) {
      var a, b := RegisteredTopic(eventType), RegisteredTopic(LowerAscii(eventType));
      assert IsAscii(a) && IsAscii(b);
      assert LowerAscii(a) == LowerAscii(b);
    }
  }

  // --- Batches ----------------------------------------------------------------------------

  const MAX_BATCH_SIZE_BYTES: nat := 1_000_000

  /**
   * An event to publish with its options.  `freshId` is the UUID drawn for it and `json`
   * what JSON.stringify makes of its event message.
   */
  datatype Event = Event(
    eventType: string,
    topic: Option<string>,
    partition: Option<int>,
    key: Option<string>,
    headers: map<string, string>,
    freshId: string,
    json: string)

  datatype Message = Message(key: string, value: string, partition: Option<int>, headers: map<string, string>)

  datatype Batch = Batch(topic: string, messages: seq<Message>)

  function EventId(e: Event): string {
    if "event-id" in e.headers && e.headers["event-id"] != "" then e.headers["event-id"] else e.freshId
  }

  function DefaultHeaders(e: Event): map<string, string> {
    map["content-type" := "application/json", "event-type" := e.eventType,
        "event-id" := EventId(e), "event-version" := "1.0"]
  }

  function KafkaMessage(e: Event): Message {
    Message(if e.key.Some? then e.key.value else EventId(e), e.json, e.partition, DefaultHeaders(e) + e.headers)
  }

  /** Callers can override every header; the id in the header is the event's unless they pass an empty one. */
  lemma EventIdHeader(e: Event)
    requires e.freshId != ""
    ensures KafkaMessage(e).headers["event-id"] == EventId(e) <==>
              !("event-id" in e.headers && e.headers["event-id"] == "")
  {
    assert "event-id" in DefaultHeaders(e);
  }

  function Topic(lower: Lowering, e: Event): string {
    if e.topic.Some? then e.topic.value else TopicFromEventType(lower, e.eventType)
  }

  function CharBytes(c: char): nat {
    if c as int < 0x80 then 1 else if c as int < 0x800 then 2 else if c as int < 0x1_0000 then 3 else 4
  }

  /** Buffer.byteLength(s, 'utf8') */
  function ByteLength(s: string): nat {
    if s == "" then 0 else CharBytes(s[0]) + ByteLength(s[1..])
  }

  function TotalSize(events: seq<Event>): nat {
    if events == [] then 0 else TotalSize(events[..|events| - 1]) + ByteLength(events[|events| - 1].json)
  }

  /** The topics of the events, in order of first appearance. */
  function Topics(lower: Lowering, events: seq<Event>): seq<string> {
    if events == [] then []
    else
      var topics := Topics(lower, events[..|events| - 1]);
      var topic := Topic(lower, events[|events| - 1]);
      if topic in topics then topics else topics + [topic]
  }

  /** The messages of the events for one topic, in input order. */
  function Select(lower: Lowering, events: seq<Event>, topic: string): seq<Message> {
    if events == [] then []
    else
      Select(lower, events[..|events| - 1], topic)
      + if Topic(lower, events[|events| - 1]) == topic then [KafkaMessage(events[|events| - 1])] else []
  }

  function BatchesFor(lower: Lowering, events: seq<Event>, topics: seq<string>): (batches: seq<Batch>)
    ensures |batches| == |topics|
  {
    seq(|topics|, i requires 0 <= i < |topics| => Batch(topics[i], Select(lower, events, topics[i])))
  }

  function Batches(lower: Lowering, events: seq<Event>): seq<Batch> {
    BatchesFor(lower, events, Topics(lower, events))
  }

  lemma {:induction false} TopicsExact(lower: Lowering, events: seq<Event>)
    ensures forall t :: t in Topics(lower, events) <==> exists e :: e in events && Topic(lower, e) == t
    ensures forall i, j :: 0 <= i < j < |Topics(lower, events)| ==> Topics(lower, events)[i] != Topics(lower, events)[j]
  {
    if events != [] {
      var front, last := events[..|events| - 1], events[|events| - 1];
      TopicsExact(lower, front);
      assert events == front + [last];
      forall t ensures t in Topics(lower, events) <==> exists e :: e in events && Topic(lower, e) == t {
        if t in Topics(lower, front) {
          var e :| e in front && Topic(lower, e) == t;
          assert e in events;
        } else if t == Topic(lower, last) {
          assert last in events;
        }
      }
    }
  }

  function AllMessages(events: seq<Event>): seq<Message> {
    if events == [] then []
    else AllMessages(events[..|events| - 1]) + [KafkaMessage(events[|events| - 1])]
  }

  function Concat(batches: seq<Batch>): seq<Message> {
    if batches == [] then [] else Concat(batches[..|batches| - 1]) + batches[|batches| - 1].messages
  }

  lemma SelectOneMore(lower: Lowering, events: seq<Event>, last: Event, topic: string)
    ensures Select(lower, events + [last], topic)
         == Select(lower, events, topic) + if Topic(lower, last) == topic then [KafkaMessage(last)] else []
  {
    assert (events + [last])[..|events|] == events;
  }

  lemma TopicsOneMore(lower: Lowering, events: seq<Event>, event: Event)
    ensures Topics(lower, events + [event])
         == Topics(lower, events) + if Topic(lower, event) in Topics(lower, events) then [] else [Topic(lower, event)]
  {
    assert (events + [event])[..|events|] == events;
  }

  /** Topics keep the order of their first appearance: more events only add to the end. */
  lemma {:induction false} TopicsKeepOrder(lower: Lowering, events: seq<Event>, n: nat)
    requires n <= |events|
    ensures Topics(lower, events[..n]) <= Topics(lower, events)
  {
    if n < |events| {
      var front := events[..|events| - 1];
      assert front[..n] == events[..n];
      TopicsKeepOrder(lower, front, n);
    } else {
      assert events[..n] == events;
    }
  }

  /** The messages for the topics, topic after topic. */
  function Flat(lower: Lowering, events: seq<Event>, topics: seq<string>): seq<Message> {
    if topics == [] then []
    else Flat(lower, events, topics[..|topics| - 1]) + Select(lower, events, topics[|topics| - 1])
  }

  lemma {:induction false} ConcatIsFlat(lower: Lowering, events: seq<Event>, topics: seq<string>)
    ensures Concat(BatchesFor(lower, events, topics)) == Flat(lower, events, topics)
  {
    if topics != [] {
      var batches := BatchesFor(lower, events, topics);
      assert batches[..|topics| - 1] == BatchesFor(lower, events, topics[..|topics| - 1]);
      ConcatIsFlat(lower, events, topics[..|topics| - 1]);
    }
  }

  lemma FlatStep(lower: Lowering, events: seq<Event>, front: seq<string>, topic: string)
    ensures Flat(lower, events, front + [topic]) == Flat(lower, events, front) + Select(lower, events, topic)
  {
    assert (front + [topic])[..|front|] == front;
  }

  predicate OneMore(before: seq<Message>, after: seq<Message>, m: Message, more: bool) {
    multiset(after) == multiset(before) + if more then multiset{m} else multiset{}
  }

  /** Only the batch of one topic changes, by one message at its end. */
  ghost predicate SelectsOneMore(lower: Lowering, events: seq<Event>, events': seq<Event>, topic: string, m: Message) {
    forall t :: Select(lower, events', t) == Select(lower, events, t) + if t == topic then [m] else []
  }

  /** One more message `m` for one topic changes only the batch of that topic. */
  lemma {:induction false} FlatOneMore(
    lower: Lowering,
    events: seq<Event>, events': seq<Event>, topics: seq<string>, topic: string, m: Message)
    requires forall i, j :: 0 <= i < j < |topics| ==> topics[i] != topics[j]
    requires SelectsOneMore(lower, events, events', topic, m)
    ensures OneMore(Flat(lower, events, topics), Flat(lower, events', topics), m, topic in topics)
  {
    if topics != [] {
      var front, t := topics[..|topics| - 1], topics[|topics| - 1];
      assert topics == front + [t] && t !in front;
      FlatOneMore(lower, events, events', front, topic, m);
      FlatStep(lower, events, front, t);
      FlatStep(lower, events', front, t);
      assert Select(lower, events', t) == Select(lower, events, t) + if t == topic then [m] else [];
      AppendOne(Flat(lower, events, front), Flat(lower, events', front),
                Select(lower, events, t), Select(lower, events', t), m, topic in front, topic == t);
    }
  }

  /** Appending two lists of which at most one has an element more at its end. */
  lemma AppendOne(
    a: seq<Message>, a': seq<Message>, b: seq<Message>, b': seq<Message>, m: Message, inA: bool, inB: bool)
    requires OneMore(a, a', m, inA)
    requires b' == b + (if inB then [m] else []) && !(inA && inB)
    ensures OneMore(a + b, a' + b', m, inA || inB)
  {
  }

  /** A topic that no event has gets an empty batch. */
  lemma {:induction false} SelectNothing(lower: Lowering, events: seq<Event>, topic: string)
    requires forall e :: e in events ==> Topic(lower, e) != topic
    ensures Select(lower, events, topic) == []
  {
    if events != [] {
      SelectNothing(lower, events[..|events| - 1], topic);
    }
  }

  /** The batches together hold exactly the messages of the input. */
  lemma BatchesPermute(lower: Lowering, events: seq<Event>)
    ensures multiset(Concat(Batches(lower, events))) == multiset(AllMessages(events))
  {
    ConcatIsFlat(lower, events, Topics(lower, events));
    FlatPermutes(lower, events);
  }

  lemma {:induction false} FlatPermutes(lower: Lowering, events: seq<Event>)
    ensures multiset(Flat(lower, events, Topics(lower, events))) == multiset(AllMessages(events))
  {
    if events != [] {
      var front, last := events[..|events| - 1], events[|events| - 1];
      assert events == front + [last];
      FlatPermutes(lower, front);
      FlatWithLast(lower, front, last);
    }
  }

  lemma FlatWithLast(lower: Lowering, front: seq<Event>, last: Event)
    ensures OneMore(Flat(lower, front, Topics(lower, front)),
                    Flat(lower, front + [last], Topics(lower, front + [last])), KafkaMessage(last), true)
  {
    var events, topic := front + [last], Topic(lower, last);
    TopicsExact(lower, events);
    TopicsExact(lower, front);
    assert last in events;
    forall t
      ensures Select(lower, events, t) == Select(lower, front, t) + if t == topic then [KafkaMessage(last)] else []
    {
      SelectOneMore(lower, front, last, t);
    }
    FlatOneMore(lower, front, events, Topics(lower, events), topic, KafkaMessage(last));
    TopicsOneMore(lower, front, last);
    if topic !in Topics(lower, front) {
      SelectNothing(lower, front, topic);
      FlatStep(lower, front, Topics(lower, front), topic);
    }
  }

  // --- What a sent batch holds, event by event ------------------------------------------

  /** The message of an event, as a consumer gets it. */
  predicate Carries(e: Event, m: Message) {
    var id := if "event-id" in e.headers && e.headers["event-id"] != "" then e.headers["event-id"] else e.freshId;
    && m.key == (if e.key.Some? then e.key.value else id)
    && m.value == e.json && m.partition == e.partition
    && m.headers.Keys == e.headers.Keys + {"content-type", "event-type", "event-id", "event-version"}
    && (forall h :: h in e.headers ==> m.headers[h] == e.headers[h])
    && ("content-type" !in e.headers ==> m.headers["content-type"] == "application/json")
    && ("event-type" !in e.headers ==> m.headers["event-type"] == e.eventType)
    && ("event-id" !in e.headers ==> m.headers["event-id"] == id)
    && ("event-version" !in e.headers ==> m.headers["event-version"] == "1.0")
  }

  /** The given topic, or the hyphenated type in lower case. */
  predicate OnTopic(lower: Lowering, e: Event, topic: string) {
    topic == if e.topic.Some? then e.topic.value else lower(ReplaceChar(e.eventType, '.', '-'))
  }

  function CountOn(lower: Lowering, events: seq<Event>, topic: string): nat {
    if events == [] then 0
    else CountOn(lower, events[..|events| - 1], topic) + if OnTopic(lower, events[|events| - 1], topic) then 1 else 0
  }

  /** The i-th event is in the batch of its topic, after the earlier events of that topic. */
  ghost predicate DeliveredIn(lower: Lowering, events: seq<Event>, i: nat, batch: Batch)
    requires i < |events|
  {
    var place := CountOn(lower, events[..i], batch.topic);
    && OnTopic(lower, events[i], batch.topic)
    && place < |batch.messages| && Carries(events[i], batch.messages[place])
  }

  ghost predicate Delivered(lower: Lowering, events: seq<Event>, i: nat, batches: seq<Batch>)
    requires i < |events|
  {
    exists b :: 0 <= b < |batches| && DeliveredIn(lower, events, i, batches[b])
  }

  /** One batch for each topic of the events, with a message for each event, in their order, and nothing else. */
  ghost predicate Delivers(lower: Lowering, events: seq<Event>, batches: seq<Batch>) {
    && (forall a, b :: 0 <= a < b < |batches| ==> batches[a].topic != batches[b].topic)
    && (forall b :: 0 <= b < |batches| ==>
          |batches[b].messages| == CountOn(lower, events, batches[b].topic) > 0)
    && (forall i :: 0 <= i < |events| ==> Delivered(lower, events, i, batches))
  }

  lemma KafkaMessageCarries(e: Event)
    ensures Carries(e, KafkaMessage(e))
  {
  }

  lemma {:induction false} SelectCounts(lower: Lowering, events: seq<Event>, topic: string)
    ensures |Select(lower, events, topic)| == CountOn(lower, events, topic)
  {
    if events != [] {
      SelectCounts(lower, events[..|events| - 1], topic);
    }
  }

  lemma {:induction false} SelectAt(lower: Lowering, events: seq<Event>, topic: string, i: nat)
    requires i < |events| && OnTopic(lower, events[i], topic)
    ensures CountOn(lower, events[..i], topic) < |Select(lower, events, topic)|
    ensures Select(lower, events, topic)[CountOn(lower, events[..i], topic)] == KafkaMessage(events[i])
  {
    var front := events[..|events| - 1];
    if i < |front| {
      SelectAt(lower, front, topic, i);
      assert front[..i] == events[..i];
    } else {
      SelectCounts(lower, front, topic);
      assert events[..i] == front;
    }
  }

  lemma {:induction false} CountPositive(lower: Lowering, events: seq<Event>, e: Event, topic: string)
    requires e in events && OnTopic(lower, e, topic)
    ensures CountOn(lower, events, topic) > 0
  {
    var front, last := events[..|events| - 1], events[|events| - 1];
    if e != last {
      assert events == front + [last];
      CountPositive(lower, front, e, topic);
    }
  }

  lemma BatchDelivers(lower: Lowering, events: seq<Event>, i: nat)
    requires i < |events|
    ensures Delivered(lower, events, i, Batches(lower, events))
  {
    var topic := Topic(lower, events[i]);
    TopicsExact(lower, events);
    assert events[i] in events && topic in Topics(lower, events);
    var b :| 0 <= b < |Topics(lower, events)| && Topics(lower, events)[b] == topic;
    SelectAt(lower, events, topic, i);
    KafkaMessageCarries(events[i]);
    assert DeliveredIn(lower, events, i, Batches(lower, events)[b]);
  }

  lemma BatchesDeliver(lower: Lowering, events: seq<Event>)
    ensures Delivers(lower, events, Batches(lower, events))
  {
    var batches, topics := Batches(lower, events), Topics(lower, events);
    TopicsExact(lower, events);
    forall b | 0 <= b < |batches| ensures |batches[b].messages| == CountOn(lower, events, batches[b].topic) > 0 {
      assert topics[b] in topics;
      var e :| e in events && Topic(lower, e) == topics[b];
      SelectCounts(lower, events, topics[b]);
      CountPositive(lower, events, e, topics[b]);
    }
    forall i | 0 <= i < |events| ensures Delivered(lower, events, i, batches) {
      BatchDelivers(lower, events, i);
    }
  }

  // --- Sizes and event types, exactly -----------------------------------------------------

  /** The bytes of a text add up over its characters, one to four each by the ranges of UTF-8. */
  lemma {:induction false} ByteLengthAdds(a: string, b: string)
    ensures ByteLength(a + b) == ByteLength(a) + ByteLength(b)
    ensures |a| == 1 ==>
              ByteLength(a) == (if a[0] as int <= 0x7F then 1 else if a[0] as int <= 0x7FF then 2
                                else if a[0] as int <= 0xFFFF then 3 else 4)
  {
    if a == "" {
      assert a + b == b;
    } else {
      assert (a + b)[1..] == a[1..] + b;
      ByteLengthAdds(a[1..], b);
    }
  }

  /** The parts with a dot between each two. */
  function Dotted(parts: seq<string>): string
    requires parts != []
  {
    if |parts| == 1 then parts[0] else parts[0] + ("." + Dotted(parts[1..]))
  }

  /** A small letter, then small letters and digits. */
  predicate IsPart(s: string) {
    s != "" && 'a' <= s[0] <= 'z' && forall c :: c in s ==> 'a' <= c <= 'z' || '0' <= c <= '9'
  }

  lemma {:induction false} RunOver(a: string, b: string)
    requires (forall c :: c in a ==> IsLetterOrDigit(c)) && (b != "" ==> !IsLetterOrDigit(b[0]))
    ensures RunLength(a + b) == |a|
  {
    if a == "" {
      assert a + b == b;
    } else {
      assert (a + b)[0] == a[0] && (a + b)[1..] == a[1..] + b;
      RunOver(a[1..], b);
    }
  }

  lemma SegmentIsPart(s: string)
    ensures IsSegment(s) <==> IsPart(s)
  {
    if IsPart(s) {
      RunOver(s, "");
      assert s + "" == s;
    }
  }

  lemma {:induction false} PartsOf(s: string) returns (parts: seq<string>)
    requires ValidEventType(s)
    ensures |parts| >= 2 && (forall p :: p in parts ==> IsPart(p)) && s == Dotted(parts)
    decreases |s|
  {
    var n := RunLength(s);
    var first, rest := s[..n], s[n + 1..];
    assert s == first + ("." + rest);
    var others: seq<string>;
    if IsSegment(rest) {
      SegmentIsPart(rest);
      others := [rest];
    } else {
      others := PartsOf(rest);
    }
    parts := [first] + others;
    assert parts[1..] == others;
  }

  lemma {:induction false} DottedIsValid(parts: seq<string>)
    requires |parts| >= 2 && forall p :: p in parts ==> IsPart(p)
    ensures ValidEventType(Dotted(parts))
  {
    var first, rest := parts[0], Dotted(parts[1..]);
    var s := first + ("." + rest);
    assert first in parts && forall p :: p in parts[1..] ==> p in parts;
    assert forall c :: c in first ==> IsLetterOrDigit(c);
    RunOver(first, "." + rest);
    assert s[|first|] == '.' && s[|first| + 1..] == rest;
    if |parts| == 2 {
      SegmentIsPart(parts[1]);
    } else {
      DottedIsValid(parts[1..]);
    }
  }

  /** Accepted event types are exactly two or more parts with dots between them. */
  lemma ValidEventTypeExactly(s: string)
    ensures ValidEventType(s) <==>
              exists parts :: |parts| >= 2 && (forall p :: p in parts ==> IsPart(p)) && s == Dotted(parts)
  {
    if ValidEventType(s) {
      var parts := PartsOf(s);
    }
    if parts :| |parts| >= 2 && (forall p :: p in parts ==> IsPart(p)) && s == Dotted(parts) {
      DottedIsValid(parts);
    }
  }

  // --- publishBatch -----------------------------------------------------------------------

  datatype Outcome =
    | Done
    | InvalidEventType(eventType: string)
    | NoProducer
    | EventTooLarge
    | BatchTooLarge
    | SendFailed

  predicate Acceptable(validation: bool, events: seq<Event>) {
    validation ==> forall e :: e in events ==> ValidEventType(e.eventType)
  }

  lemma {:induction false} SizeMonotone(events: seq<Event>, n: nat)
    requires n <= |events|
    ensures TotalSize(events[..n]) <= TotalSize(events)
    ensures forall i :: 0 <= i < n ==> ByteLength(events[i].json) <= TotalSize(events)
  {
    if n < |events| {
      var front := events[..|events| - 1];
      SizeMonotone(front, n);
      assert front[..n] == events[..n];
    } else if n > 0 {
      var front := events[..|events| - 1];
      SizeMonotone(front, n - 1);
      assert events[..n] == events;
      assert forall i :: 0 <= i < n - 1 ==> front[i] == events[i];
    }
  }

  /** The map of arrays for the events so far, with its insertion order. */
  ghost predicate Grouped(
    lower: Lowering, events: seq<Event>, order: seq<string>, messagesByTopic: map<string, seq<Message>>)
  {
    && order == Topics(lower, events)
    && (forall t :: t in order <==> t in messagesByTopic)
    && (forall t :: t in messagesByTopic ==> messagesByTopic[t] == Select(lower, events, t))
  }

  /** Adding an event to the map of arrays. */
  lemma GroupedOneMore(
    lower: Lowering, events: seq<Event>, event: Event, order: seq<string>, messages: map<string, seq<Message>>)
    requires Grouped(lower, events, order, messages)
    ensures var topic := Topic(lower, event);
            var before := if topic in messages then messages[topic] else [];
            Grouped(lower, events + [event], order + (if topic in messages then [] else [topic]),
                    messages[topic := before + [KafkaMessage(event)]])
  {
    var topic := Topic(lower, event);
    TopicsOneMore(lower, events, event);
    SelectOneMore(lower, events, event, topic);
    if topic !in messages {
      TopicsExact(lower, events);
      SelectNothing(lower, events, topic);
    }
    forall t | t in messages && t != topic ensures messages[t] == Select(lower, events + [event], t) {
      SelectOneMore(lower, events, event, t);
    }
  }

  /** The failure names the first event that goes over the limit, on its own or with those before it. */
  ghost predicate Overflows(events: seq<Event>, failure: Outcome) {
    exists i :: 0 <= i < |events| && OverflowsAt(events, i) &&
      failure == if ByteLength(events[i].json) > 1_000_000 then EventTooLarge else BatchTooLarge
  }

  predicate OverflowsAt(events: seq<Event>, i: nat)
    requires i < |events|
  {
    TotalSize(events[..i]) <= 1_000_000 < TotalSize(events[..i]) + ByteLength(events[i].json)
  }

  /** Grouping by topic, with the size checks; nothing is sent here. */
  method Group(lower: Lowering, events: seq<Event>)
    returns (failure: Option<Outcome>, order: seq<string>, messagesByTopic: map<string, seq<Message>>)
    ensures failure.None? <==> TotalSize(events) <= MAX_BATCH_SIZE_BYTES
    ensures failure.Some? ==> Overflows(events, failure.value)
    ensures failure.None? ==> Grouped(lower, events, order, messagesByTopic)
  {
    messagesByTopic, order := map[], [];
    var totalBatchSize := 0;
    for i := 0 to |events|
      invariant Grouped(lower, events[..i], order, messagesByTopic)
      invariant totalBatchSize == TotalSize(events[..i]) <= MAX_BATCH_SIZE_BYTES
    {
      var event := events[i];
      assert events[..i + 1] == events[..i] + [event];
      assert events[..i + 1][..i] == events[..i];
      SizeMonotone(events, i + 1);
      var topic := Topic(lower, event);
      var messageSize := ByteLength(event.json);
      assert totalBatchSize + messageSize > MAX_BATCH_SIZE_BYTES ==> OverflowsAt(events, i);
      if messageSize > MAX_BATCH_SIZE_BYTES {
        return Some(EventTooLarge), order, messagesByTopic;
      }
      if totalBatchSize + messageSize > MAX_BATCH_SIZE_BYTES {
        return Some(BatchTooLarge), order, messagesByTopic;
      }
      totalBatchSize := totalBatchSize + messageSize;
      GroupedOneMore(lower, events[..i], event, order, messagesByTopic);
      if topic !in messagesByTopic {
        messagesByTopic := messagesByTopic[topic := []];
        order := order + [topic];
      }
      messagesByTopic := messagesByTopic[topic := messagesByTopic[topic] + [KafkaMessage(event)]];
    }
    assert events[..|events|] == events;
    failure := None;
  }

  lemma NextBatch(lower: Lowering, events: seq<Event>, order: seq<string>, messages: map<string, seq<Message>>, k: nat)
    requires Grouped(lower, events, order, messages) && k < |order|
    ensures order[k] in messages && k < |Batches(lower, events)|
    ensures Batches(lower, events)[..k + 1] == Batches(lower, events)[..k] + [Batch(order[k], messages[order[k]])]
  {
    assert order[k] in order;
  }

  /** One send per topic, in order, until one throws. */
  method SendBatches(
    lower: Lowering,
    ghost events: seq<Event>, order: seq<string>, messagesByTopic: map<string, seq<Message>>, acks: seq<bool>)
    returns (acked: bool, sent: seq<Batch>)
    requires Grouped(lower, events, order, messagesByTopic) && |order| <= |acks|
    ensures acked ==> sent == Batches(lower, events) && |sent| <= |acks| && forall k :: 0 <= k < |sent| ==> acks[k]
    ensures !acked ==>
              && 0 < |sent| <= |acks| && sent <= Batches(lower, events) && !acks[|sent| - 1]
              && forall k :: 0 <= k < |sent| - 1 ==> acks[k]
  {
    sent := [];
    ghost var batches := Batches(lower, events);
    for k := 0 to |order|
      invariant |batches| == |order| && sent == batches[..k]
      invariant forall j :: 0 <= j < k ==> acks[j]
    {
      NextBatch(lower, events, order, messagesByTopic, k);
      sent := sent + [Batch(order[k], messagesByTopic[order[k]])];
      if !acks[k] {
        return false, sent;
      }
    }
    assert batches[..|order|] == batches;
    acked := true;
  }

  predicate FirstInvalid(events: seq<Event>, i: nat)
    requires i < |events|
  {
    !ValidEventType(events[i].eventType) && forall j :: 0 <= j < i ==> ValidEventType(events[j].eventType)
  }

  class Bus {
    const lower: Lowering
    var enabled: bool
    var eventTypeValidationEnabled: bool

    constructor (lower: Lowering, enabled: bool, eventTypeValidationEnabled: bool)
      ensures this.lower == lower
      ensures this.enabled == enabled && this.eventTypeValidationEnabled == eventTypeValidationEnabled
    {
      this.lower := lower;
      this.enabled, this.eventTypeValidationEnabled := enabled, eventTypeValidationEnabled;
    }

    method SetEnabled(enabled: bool)
      modifies this`enabled
      ensures this.enabled == enabled
    {
      this.enabled := enabled;
    }

    /**
     * `sent` lists the batches handed to the producer; `acks` says which sends return.
     * Nothing is sent unless every check has passed.
     */
    method PublishBatch(events: seq<Event>, producerOk: bool, acks: seq<bool>)
      returns (outcome: Outcome, sent: seq<Batch>)
      requires |acks| >= |events|
      ensures !enabled ==> outcome.Done? && sent == []
      ensures enabled && outcome.Done? ==>
                sent == Batches(lower, events) && |sent| <= |acks| && forall k :: 0 <= k < |sent| ==> acks[k]
      ensures enabled && (outcome.Done? || outcome.SendFailed?) ==>
                Acceptable(eventTypeValidationEnabled, events) && TotalSize(events) <= MAX_BATCH_SIZE_BYTES
      ensures outcome.SendFailed? ==>
                0 < |sent| <= |acks| && sent <= Batches(lower, events) && !acks[|sent| - 1]
      ensures !outcome.Done? && !outcome.SendFailed? ==> sent == []
      ensures outcome.InvalidEventType? <==> enabled && !Acceptable(eventTypeValidationEnabled, events)
      ensures outcome.NoProducer? <==> enabled && Acceptable(eventTypeValidationEnabled, events) && !producerOk
      ensures outcome.EventTooLarge? || outcome.BatchTooLarge? <==>
                && enabled && Acceptable(eventTypeValidationEnabled, events) && producerOk
                && TotalSize(events) > MAX_BATCH_SIZE_BYTES
      // the same in terms of what consumers and callers see
      ensures enabled && outcome.Done? ==> Delivers(lower, events, sent)
      ensures outcome.SendFailed? ==> exists all :: Delivers(lower, events, all) && sent <= all
      ensures outcome.EventTooLarge? || outcome.BatchTooLarge? ==> Overflows(events, outcome)
      ensures outcome.InvalidEventType? ==>
                exists i :: 0 <= i < |events| && FirstInvalid(events, i) && outcome.eventType == events[i].eventType
    {
      BatchesDeliver(lower, events);
      sent := [];
      if !enabled {
        return Done, sent;
      }
      if eventTypeValidationEnabled {
        for i := 0 to |events|
          invariant forall j :: 0 <= j < i ==> ValidEventType(events[j].eventType)
        {
          if !ValidEventType(events[i].eventType) {
            assert events[i] in events && FirstInvalid(events, i);
            return InvalidEventType(events[i].eventType), sent;
          }
        }
      }
      if !producerOk {
        return NoProducer, sent;
      }
      var failure, order, messagesByTopic := Group(lower, events);
      if failure.Some? {
        return failure.value, sent;
      }
      TopicsNoLonger(lower, events);
      var acked;
      acked, sent := SendBatches(lower, events, order, messagesByTopic, acks);
      outcome := if acked then Done else SendFailed;
    }
  }

  lemma {:induction false} TopicsNoLonger(lower: Lowering, events: seq<Event>)
    ensures |Topics(lower, events)| <= |events|
  {
    if events != [] {
      TopicsNoLonger(lower, events[..|events| - 1]);
    }
  }
}

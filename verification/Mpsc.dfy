// Many producers, one channel, one consumer that counts messages instead of
// waiting for a close and checks every producer's order as it goes.
module Mpsc {
  import opened Sums

  datatype Message = Message(producer: nat, number: int)

  // ---- one producer's messages within a mixed sequence ----

  function Stream(ms: seq<Message>, p: nat): seq<int> {
    if ms == [] then []
    else
      var m := ms[|ms| - 1];
      Stream(ms[..|ms| - 1], p) + if m.producer == p then [m.number] else []
  }

  // 1, 2, ..., n
  function UpTo(n: nat): seq<int> {
    if n == 0 then [] else UpTo(n - 1) + [n]
  }

  // The last number seen from p, 0 before the first.
  function LastNumber(ms: seq<Message>, p: nat): int {
    var s := Stream(ms, p);
    if s == [] then 0 else s[|s| - 1]
  }

  // How many messages do not carry the number after their producer's last one.
  function Violations(ms: seq<Message>): nat {
    if ms == [] then 0
    else
      var init, m := ms[..|ms| - 1], ms[|ms| - 1];
      Violations(init) + if m.number != LastNumber(init, m.producer) + 1 then 1 else 0
  }

  lemma StreamAppend(ms: seq<Message>, m: Message, p: nat)
    ensures Stream(ms + [m], p) == Stream(ms, p) + if m.producer == p then [m.number] else []
  {
    assert (ms + [m])[..|ms|] == ms;
  }

  lemma {:induction false} UpToLast(n: nat)
    ensures |UpTo(n)| == n && (n > 0 ==> UpTo(n)[n - 1] == n)
  {
    if n > 0 {
      UpToLast(n - 1);
    }
  }

  // Producer p's messages arrived as 1, 2, 3, ... so far.
  predicate Ordered(ms: seq<Message>, p: nat) {
    Stream(ms, p) == UpTo(|Stream(ms, p)|)
  }

  lemma LastOfOrdered(ms: seq<Message>, p: nat)
    requires Ordered(ms, p)
    ensures LastNumber(ms, p) == |Stream(ms, p)|
  {
    UpToLast(|Stream(ms, p)|);
  }

  // One more message keeps its producer's stream ordered exactly when it
  // carries the next number, and leaves the other streams alone.
  lemma OneMoreOrdered(init: seq<Message>, m: Message, p: nat)
    ensures Ordered(init + [m], p) <==>
              Ordered(init, p) && (m.producer == p ==> m.number == LastNumber(init, p) + 1)
  {
    var before := Stream(init, p);
    StreamAppend(init, m, p);
    if m.producer == p {
      var n := |before|;
      assert UpTo(n + 1) == UpTo(n) + [n + 1];
      UpToLast(n);
      assert (before + [m.number])[..n] == before && (UpTo(n) + [n + 1])[..n] == UpTo(n);
      assert (before + [m.number])[n] == m.number && (UpTo(n) + [n + 1])[n] == n + 1;
      if Ordered(init, p) {
        LastOfOrdered(init, p);
      }
      if Ordered(init + [m], p) {
        assert before == UpTo(n);
        LastOfOrdered(init, p);
      }
    }
  }

  // The consumer's check is exact: it counts no violation if and only if every
  // producer's messages arrived as 1, 2, 3, ... without gap, repeat or swap.
  lemma {:induction false} NoViolationMeansInOrder(ms: seq<Message>)
    ensures Violations(ms) == 0 <==> forall p: nat :: Ordered(ms, p)
  {
    if ms != [] {
      var init, m := ms[..|ms| - 1], ms[|ms| - 1];
      NoViolationMeansInOrder(init);
      assert ms == init + [m];
      forall p: nat
        ensures Ordered(ms, p) <==>
                  Ordered(init, p) && (m.producer == p ==> m.number == LastNumber(init, p) + 1)
      {
        OneMoreOrdered(init, m, p);
      }
      if forall p: nat :: Ordered(ms, p) {
        assert Ordered(ms, m.producer);
        assert forall p: nat :: Ordered(init, p);
      }
    }
  }

  // What one more message does to producer p's last number and count.
  lemma SeesOneMore(ms: seq<Message>, m: Message, p: nat)
    ensures LastNumber(ms + [m], p) == (if m.producer == p then m.number else LastNumber(ms, p))
    ensures |Stream(ms + [m], p)| == |Stream(ms, p)| + (if m.producer == p then 1 else 0)
    ensures m.producer == p ==>
              Violations(ms + [m]) == Violations(ms) + if m.number != LastNumber(ms, p) + 1 then 1 else 0
  {
    StreamAppend(ms, m, p);
    assert (ms + [m])[..|ms|] == ms;
  }

  lemma NothingSeen(producers: nat)
    ensures Violations([]) == 0
    ensures forall p :: 1 <= p <= producers ==> LastNumber([], p) == 0 && Stream([], p) == []
  {}

  // mt_consumer, given the messages its receives return.
  method Consume(received: seq<Message>, producers: nat)
    returns (violations: nat, lastSeq: array<int>, count: array<int>)
    requires forall k :: 0 <= k < |received| ==> 1 <= received[k].producer <= producers
    ensures lastSeq.Length == count.Length == producers + 1
    ensures violations == Violations(received)
    ensures forall p :: 1 <= p <= producers ==> lastSeq[p] == LastNumber(received, p)
    ensures forall p :: 1 <= p <= producers ==> count[p] == |Stream(received, p)|
  {
    NothingSeen(producers);
    hide Stream, LastNumber, Violations;
    lastSeq := new int[producers + 1](_ => 0);
    count := new int[producers + 1](_ => 0);
    violations := 0;
    var k := 0;
    while k < |received|
      invariant k <= |received|
      invariant violations == Violations(received[..k])
      invariant forall p :: 1 <= p <= producers ==> lastSeq[p] == LastNumber(received[..k], p)
      invariant forall p :: 1 <= p <= producers ==> count[p] == |Stream(received[..k], p)|
    {
      var m := received[k];
      assert received[..k + 1] == received[..k] + [m];
      SeesOneMore(received[..k], m, m.producer);
      forall p: nat
        ensures LastNumber(received[..k + 1], p) == if m.producer == p then m.number else LastNumber(received[..k], p)
        ensures |Stream(received[..k + 1], p)| == |Stream(received[..k], p)| + if m.producer == p then 1 else 0
      {
        SeesOneMore(received[..k], m, p);
      }
      if m.number != lastSeq[m.producer] + 1 {
        violations := violations + 1;
      }
      lastSeq[m.producer] := m.number;
      count[m.producer] := count[m.producer] + 1;
      k := k + 1;
    }
    assert received[..k] == received;
  }

  // ---- the channel between them ----

  datatype State = State(
    perProducer: nat,
    capacity: nat,
    sent: seq<nat>,           // producer p's sends that have returned, at index p - 1
    buffer: seq<Message>,
    received: seq<Message>)

  datatype Action =
    | Push(p: nat)   // a send of producer p finds room in the buffer
    | Take           // the consumer receives from the buffer
    | Meet(p: nat)   // the consumer waits on an empty buffer and producer p sends

  function Init(producers: nat, perProducer: nat, capacity: nat): State {
    State(perProducer, capacity, seq(producers, _ => 0), [], [])
  }

  predicate CanSend(s: State, p: nat) {
    1 <= p <= |s.sent| && s.sent[p - 1] < s.perProducer
  }

  // The consumer's loop runs for a fixed number of messages.
  predicate Listening(s: State) {
    |s.received| < |s.sent| * s.perProducer
  }

  predicate Enabled(s: State, a: Action) {
    match a
    case Push(p) => CanSend(s, p) && |s.buffer| < s.capacity
    case Take => Listening(s) && s.buffer != []
    case Meet(p) => Listening(s) && s.buffer == [] && CanSend(s, p)
  }

  function NextMessage(s: State, p: nat): Message
    requires CanSend(s, p)
  {
    Message(p, s.sent[p - 1] + 1)
  }

  function Apply(s: State, a: Action): State
    requires Enabled(s, a)
  {
    match a
    case Push(p) => s.(sent := s.sent[p - 1 := s.sent[p - 1] + 1], buffer := s.buffer + [NextMessage(s, p)])
    case Take => s.(buffer := s.buffer[1..], received := s.received + [s.buffer[0]])
    case Meet(p) => s.(sent := s.sent[p - 1 := s.sent[p - 1] + 1], received := s.received + [NextMessage(s, p)])
  }

  // Everything sent so far is received or buffered, each producer's part in order.
  predicate Inv(s: State) {
    && (forall i :: 0 <= i < |s.sent| ==> s.sent[i] <= s.perProducer)
    && |s.buffer| <= s.capacity
    && |s.received| + |s.buffer| == Sum(s.sent)
    && InOrder(s.received + s.buffer, s.sent)
  }

  predicate InOrder(ms: seq<Message>, sent: seq<nat>) {
    && (forall k :: 0 <= k < |ms| ==> 1 <= ms[k].producer <= |sent|)
    && (forall p :: 1 <= p <= |sent| ==> Stream(ms, p) == UpTo(sent[p - 1]))
  }

  lemma OneMore(ms: seq<Message>, sent: seq<nat>, p: nat)
    requires InOrder(ms, sent) && 1 <= p <= |sent|
    ensures InOrder(ms + [Message(p, sent[p - 1] + 1)], sent[p - 1 := sent[p - 1] + 1])
  {
    var m := Message(p, sent[p - 1] + 1);
    forall q | 1 <= q <= |sent| ensures Stream(ms + [m], q) == UpTo(sent[p - 1 := sent[p - 1] + 1][q - 1]) {
      StreamAppend(ms, m, q);
    }
  }

  lemma InitInv(producers: nat, perProducer: nat, capacity: nat)
    ensures Inv(Init(producers, perProducer, capacity))
  {
    InitSum(producers);
  }

  lemma StepKeepsInv(s: State, a: Action)
    requires Inv(s) && Enabled(s, a)
    ensures Inv(Apply(s, a))
  {
    hide InOrder;
    var t := Apply(s, a);
    match a
    case Take =>
      assert t.received + t.buffer == s.received + s.buffer;
    case Push(p) =>
      SumUpdate(s.sent, p - 1, s.sent[p - 1] + 1);
      OneMore(s.received + s.buffer, s.sent, p);
      assert t.received + t.buffer == (s.received + s.buffer) + [NextMessage(s, p)];
    case Meet(p) =>
      SumUpdate(s.sent, p - 1, s.sent[p - 1] + 1);
      OneMore(s.received + s.buffer, s.sent, p);
      assert t.received + t.buffer == (s.received + s.buffer) + [NextMessage(s, p)];
  }

  // Each step moves one message on: sent, then received.
  function Progress(s: State): nat {
    2 * |s.received| + |s.buffer|
  }

  lemma ProgressBound(s: State)
    requires Inv(s)
    ensures Progress(s) <= 2 * (|s.sent| * s.perProducer)
  {
    SumBound(s.sent, s.perProducer);
  }

  lemma StepAdvances(s: State, a: Action)
    requires Inv(s) && Enabled(s, a)
    ensures Progress(s) < Progress(Apply(s, a)) <= 2 * (|s.sent| * s.perProducer)
  {
    StepKeepsInv(s, a);
    ProgressBound(Apply(s, a));
    hide Inv;
  }

  // No capacity, not even 0, lets the network get stuck before the count is full.
  lemma CanMove(s: State) returns (a: Action)
    requires Inv(s) && Listening(s)
    ensures Enabled(s, a)
  {
    SumBound(s.sent, s.perProducer);
    if s.buffer != [] {
      a := Take;
    } else {
      var i :| 0 <= i < |s.sent| && s.sent[i] != s.perProducer;
      a := Meet(i + 1);
    }
  }

  // When the consumer has counted to the end, nothing is left anywhere.
  lemma CompleteMeansAll(s: State)
    requires Inv(s) && !Listening(s)
    ensures s.buffer == [] && |s.received| == |s.sent| * s.perProducer
    ensures forall a :: !Enabled(s, a)
    ensures forall k :: 0 <= k < |s.received| ==> 1 <= s.received[k].producer <= |s.sent|
    ensures forall p :: 1 <= p <= |s.sent| ==> Stream(s.received, p) == UpTo(s.perProducer)
  {
    SumBound(s.sent, s.perProducer);
    assert s.received + s.buffer == s.received;
  }

  // Whatever the schedule, the producer count, the message count and the
  // capacity: the run ends, and the consumer has seen every message of every
  // producer once, in order, and says so.
  method Run(producers: nat, perProducer: nat, capacity: nat)
    returns (violations: nat, lastSeq: array<int>, count: array<int>)
    ensures lastSeq.Length == count.Length == producers + 1
    ensures violations == 0
    ensures forall p :: 1 <= p <= producers ==> lastSeq[p] == perProducer && count[p] == perProducer
  {
    var s := Init(producers, perProducer, capacity);
    InitInv(producers, perProducer, capacity);
    while Listening(s)
      invariant Inv(s) && |s.sent| == producers && s.perProducer == perProducer && s.capacity == capacity
      decreases 2 * (producers * perProducer) - Progress(s)
    {
      ghost var possible := CanMove(s);
      CandidatesSuffice(s, possible);
      var a :| a in Candidates(s) && Enabled(s, a);
      StepKeepsInv(s, a);
      StepAdvances(s, a);
      s := Apply(s, a);
    }
    CompleteMeansAll(s);
    AllInOrder(s.received, producers, perProducer);
    violations, lastSeq, count := Consume(s.received, producers);
  }

  function Candidates(s: State): set<Action> {
    {Take} + (set p | 1 <= p <= |s.sent| :: Push(p)) + (set p | 1 <= p <= |s.sent| :: Meet(p))
  }

  lemma CandidatesSuffice(s: State, a: Action)
    requires Enabled(s, a)
    ensures a in Candidates(s)
  {}

  lemma AllInOrder(ms: seq<Message>, producers: nat, perProducer: nat)
    requires forall k :: 0 <= k < |ms| ==> 1 <= ms[k].producer <= producers
    requires forall p :: 1 <= p <= producers ==> Stream(ms, p) == UpTo(perProducer)
    ensures Violations(ms) == 0
    ensures forall p :: 1 <= p <= producers ==>
              LastNumber(ms, p) == perProducer && |Stream(ms, p)| == perProducer
  {
    UpToLast(perProducer);
    forall p: nat ensures Ordered(ms, p) {
      if !(1 <= p <= producers) {
        NoStream(ms, p);
      }
    }
    NoViolationMeansInOrder(ms);
  }

  lemma {:induction false} NoStream(ms: seq<Message>, p: nat)
    requires forall k :: 0 <= k < |ms| ==> ms[k].producer != p
    ensures Stream(ms, p) == []
  {
    if ms != [] {
      NoStream(ms[..|ms| - 1], p);
    }
  }
}

// The concurrent prime sieve: a generator, a chain of filters that grows at
// run time, and the tail process that reads the chain's end. Processes meet
// on unbuffered channels; every interleaving of their steps is a run.
module Sieve {
  import opened Options
  import opened Primes

  // A channel remembers how often it was closed and what was handed over on it.
  datatype Chan = Chan(closes: nat, log: seq<int>)

  // Where a filter is suspended: in its receive, in its send of v, or finished.
  datatype Pc = Waiting | Holding(v: int) | Returned

  datatype Filter = Filter(prime: int, input: nat, out: nat, pc: Pc)

  datatype State = State(
    limit: int,
    next: int,              // the generator's loop variable
    genReturned: bool,
    filters: seq<Filter>,
    chans: seq<Chan>,
    chainEnd: nat,          // the channel the tail reads
    primeCount: nat,
    printed: seq<int>,
    tailDone: bool)

  datatype Proc = Gen | Filt(i: nat) | Tail

  datatype Action =
    | Handoff(from: Proc, to: Proc)  // a send and a receive on one channel meet
    | CloseGen                       // the generator leaves its loop and closes
    | Eof(reader: Proc)              // a receive fails because the channel is closed

  function Init(limit: int): State {
    State(limit, 2, false, [], [Chan(0, [])], 0, 0, [], false)
  }

  // ---- what each process is ready to do ----

  // The value a process is suspended on sending, if any.
  function Offer(s: State, p: Proc): Option<int> {
    match p
    case Gen => if !s.genReturned && s.next <= s.limit then Some(s.next) else None
    case Filt(i) => if i < |s.filters| && s.filters[i].pc.Holding? then Some(s.filters[i].pc.v) else None
    case Tail => None
  }

  predicate Writes(s: State, p: Proc, c: nat) {
    match p
    case Gen => c == 0
    case Filt(i) => i < |s.filters| && s.filters[i].out == c
    case Tail => false
  }

  predicate Reads(s: State, p: Proc, c: nat) {
    match p
    case Gen => false
    case Filt(i) => i < |s.filters| && s.filters[i].input == c
    case Tail => s.chainEnd == c
  }

  predicate Listens(s: State, p: Proc) {
    match p
    case Gen => false
    case Filt(i) => i < |s.filters| && s.filters[i].pc.Waiting?
    case Tail => !s.tailDone
  }

  function InputOf(s: State, p: Proc): nat
    requires p.Filt? ==> p.i < |s.filters|
  {
    match p
    case Gen => 0
    case Filt(i) => s.filters[i].input
    case Tail => s.chainEnd
  }

  predicate Enabled(s: State, a: Action) {
    match a
    case Handoff(from, to) =>
      Offer(s, from).Some? && Listens(s, to) && Writes(s, from, InputOf(s, to)) && InputOf(s, to) < |s.chans|
    case CloseGen =>
      !s.genReturned && s.next > s.limit && s.chans != []
    case Eof(p) =>
      && Listens(s, p) && InputOf(s, p) < |s.chans| && s.chans[InputOf(s, p)].closes > 0
      && (p.Filt? ==> s.filters[p.i].out < |s.chans|)
  }

  // ---- what happens ----

  function Sent(s: State, p: Proc): State
    requires Offer(s, p).Some?
  {
    match p
    case Gen => s.(next := s.next + 1)
    case Filt(i) => s.(filters := s.filters[i := s.filters[i].(pc := Waiting)])
    case Tail => s
  }

  function Received(s: State, p: Proc, v: int): State
    requires Listens(s, p)
    requires p.Filt? ==> s.filters[p.i].prime != 0
  {
    match p
    case Gen => s
    case Filt(i) =>
      if Passes(v, s.filters[i].prime)
      then s.(filters := s.filters[i := s.filters[i].(pc := Holding(v))])
      else s
    case Tail =>
      s.(primeCount := s.primeCount + 1,
         printed := s.printed + [v],
         chans := s.chans + [Chan(0, [])],
         filters := s.filters + [Filter(v, s.chainEnd, |s.chans|, Waiting)],
         chainEnd := |s.chans|)
  }

  function Logged(s: State, c: nat, v: int): State
    requires c < |s.chans|
  {
    s.(chans := s.chans[c := s.chans[c].(log := s.chans[c].log + [v])])
  }

  function Closed(s: State, c: nat): State
    requires c < |s.chans|
  {
    s.(chans := s.chans[c := s.chans[c].(closes := s.chans[c].closes + 1)])
  }

  function Apply(s: State, a: Action): State
    requires Enabled(s, a) && Wiring(s)
  {
    match a
    case Handoff(from, to) =>
      var v := Offer(s, from).value;
      var c := InputOf(s, to);
      Received(Sent(Logged(s, c, v), from), to, v)
    case CloseGen => Closed(s, 0).(genReturned := true)
    case Eof(p) =>
      match p
      case Filt(i) => Closed(s, s.filters[i].out).(filters := s.filters[i := s.filters[i].(pc := Returned)])
      case _ => s.(tailDone := true)
  }

  // ---- the invariant ----

  // Filter i sits between channels i and i+1 and the tail reads the last one.
  predicate Wiring(s: State) {
    && |s.chans| == |s.filters| + 1
    && s.chainEnd == |s.filters|
    && s.primeCount == |s.printed| == |s.filters|
    && Positive(s.printed)
    && forall i :: 0 <= i < |s.filters| ==>
         s.filters[i].input == i && s.filters[i].out == i + 1 && s.filters[i].prime == s.printed[i]
  }

  // The members of xs that the filter for p forwards.
  function Strain(xs: seq<int>, p: int): seq<int>
    requires p != 0
  {
    if xs == [] then []
    else Strain(xs[..|xs| - 1], p) + (if Passes(xs[|xs| - 1], p) then [xs[|xs| - 1]] else [])
  }

  // All numbers in [2, n) that pass every filter of ps, ascending.
  function Survivors(ps: seq<int>, n: int): seq<int>
    requires Positive(ps)
  {
    if n <= 2 then []
    else Survivors(ps, n - 1) + (if Survives(n - 1, ps) then [n - 1] else [])
  }

  function Pending(f: Filter): seq<int> {
    if f.pc.Holding? then [f.pc.v] else []
  }

  // Nothing is lost, invented or reordered between the two sides of a filter.
  predicate Link(s: State, i: int)
    requires Wiring(s) && 0 <= i < |s.filters|
  {
    s.chans[i + 1].log + Pending(s.filters[i]) == Strain(s.chans[i].log, s.printed[i])
  }

  predicate Flow(s: State)
    requires Wiring(s)
  {
    && s.next >= 2 && (s.next <= s.limit + 1 || s.next == 2)
    && s.chans[0].log == Survivors([], s.next)
    && (forall i :: 0 <= i < |s.filters| ==> Link(s, i))
    && (forall i :: 0 <= i < |s.filters| ==> s.chans[i].log != [] && s.chans[i].log[0] == s.printed[i])
    && s.chans[|s.filters|].log == []
  }

  predicate WriterReturned(s: State, c: nat)
    requires Wiring(s) && c <= |s.filters|
  {
    if c == 0 then s.genReturned else s.filters[c - 1].pc.Returned?
  }

  predicate ReaderReturned(s: State, c: nat)
    requires Wiring(s) && c <= |s.filters|
  {
    if c < |s.filters| then s.filters[c].pc.Returned? else s.tailDone
  }

  // A channel is closed by its writer on return, once; a reader returns only after that.
  predicate Closing(s: State)
    requires Wiring(s)
  {
    && (s.genReturned ==> s.next > s.limit)
    && (forall c :: 0 <= c <= |s.filters| ==> s.chans[c].closes == if WriterReturned(s, c) then 1 else 0)
    && (forall c :: 0 <= c <= |s.filters| && ReaderReturned(s, c) ==> WriterReturned(s, c))
  }

  predicate Inv(s: State) {
    Wiring(s) && Flow(s) && Closing(s) && SieveOrder(s.printed)
  }

  // ---- streams ----

  lemma StrainAppend(xs: seq<int>, v: int, p: int)
    requires p != 0
    ensures Strain(xs + [v], p) == Strain(xs, p) + if Passes(v, p) then [v] else []
  {
    assert (xs + [v])[..|xs|] == xs;
  }

  lemma {:induction false} StrainPrefix(xs: seq<int>, ys: seq<int>, p: int)
    requires p != 0 && xs <= ys
    ensures Strain(xs, p) <= Strain(ys, p)
    decreases |ys|
  {
    if xs != ys {
      var init := ys[..|ys| - 1];
      StrainPrefix(xs, init, p);
    }
  }

  lemma {:induction false} StrainSurvivors(ps: seq<int>, p: int, n: int)
    requires Positive(ps) && p >= 2
    ensures Strain(Survivors(ps, n), p) == Survivors(ps + [p], n)
    decreases if n <= 2 then 0 else n
  {
    if n > 2 {
      hide Passes, Survives;
      StrainSurvivors(ps, p, n - 1);
      var before := Survivors(ps, n - 1);
      SurvivesAppend(n - 1, ps, p);
      if Survives(n - 1, ps) {
        StrainAppend(before, n - 1, p);
      } else {
        assert Survivors(ps, n) == before;
      }
    }
  }

  lemma SurvivesAppend(v: int, ps: seq<int>, p: int)
    requires Positive(ps) && p >= 2
    ensures Survives(v, ps + [p]) <==> Survives(v, ps) && Passes(v, p)
  {
    var qs := ps + [p];
    assert qs[|ps|] == p;
    assert forall i :: 0 <= i < |ps| ==> qs[i] == ps[i];
  }

  lemma {:induction false} SurvivorsMembers(ps: seq<int>, n: int)
    requires Positive(ps)
    ensures forall v :: v in Survivors(ps, n) <==> 2 <= v < n && Survives(v, ps)
    ensures forall i, j :: 0 <= i < j < |Survivors(ps, n)| ==> Survivors(ps, n)[i] < Survivors(ps, n)[j]
    ensures |Survivors(ps, n)| <= if n <= 2 then 0 else n - 2
    decreases if n <= 2 then 0 else n
  {
    if n > 2 {
      SurvivorsMembers(ps, n - 1);
      var before := Survivors(ps, n - 1);
      assert forall i :: 0 <= i < |before| ==> before[i] in before;
    }
  }

  // The first survivor is the least one.
  lemma FirstIsLeast(v: int, ps: seq<int>, n: int)
    requires Positive(ps) && [v] <= Survivors(ps, n)
    ensures LeastSurvivor(v, ps)
  {
    SurvivorsMembers(ps, n);
    var all := Survivors(ps, n);
    assert all[0] == v && v in all;
    assert forall j :: 0 <= j < |all| ==> v <= all[j];
    assert forall w :: w < v ==> w !in all;
  }

  // What crossed channel i is a prefix of the numbers that no earlier prime divides.
  lemma {:induction false} StreamPrefix(s: State, i: nat)
    requires Wiring(s) && Flow(s) && i <= |s.filters|
    ensures s.chans[i].log <= Survivors(s.printed[..i], s.next)
  {
    if i > 0 {
      StreamPrefix(s, i - 1);
      assert Link(s, i - 1);
      StrainedPrefix(s, i - 1);
    } else {
      assert s.printed[..0] == [];
    }
  }

  lemma StrainedPrefix(s: State, i: nat)
    requires Wiring(s) && i < |s.filters|
    requires s.chans[i].log <= Survivors(s.printed[..i], s.next)
    ensures Strain(s.chans[i].log, s.printed[i]) <= Survivors(s.printed[..i + 1], s.next)
  {
    StrainPrefix(s.chans[i].log, Survivors(s.printed[..i], s.next), s.printed[i]);
    StrainSurvivors(s.printed[..i], s.printed[i], s.next);
    assert s.printed[..i] + [s.printed[i]] == s.printed[..i + 1];
  }

  lemma InvWires(s: State)
    requires Inv(s)
    ensures Wiring(s)
  {}

  // ---- every step keeps the invariant ----

  lemma InitInv(limit: int)
    ensures Inv(Init(limit))
  {}

  // What a sender is about to hand over continues its channel's stream.
  lemma OfferContinues(s: State, p: Proc, c: nat)
    requires Wiring(s) && Flow(s) && Closing(s) && Offer(s, p).Some? && Writes(s, p, c)
    ensures c <= |s.filters| && !WriterReturned(s, c)
    ensures Offer(s, p).value >= 2
    ensures s.chans[c].log + [Offer(s, p).value] <= Survivors(s.printed[..c], s.next + 1)
  {
    if p == Gen {
      assert s.printed[..0] == [];
      assert Survives(s.next, []);
    } else {
      FilterOfferContinues(s, p.i);
    }
  }

  lemma FilterOfferContinues(s: State, i: nat)
    requires Wiring(s) && Flow(s) && i < |s.filters| && s.filters[i].pc.Holding?
    ensures s.filters[i].pc.v >= 2
    ensures s.chans[i + 1].log + [s.filters[i].pc.v] <= Survivors(s.printed[..i + 1], s.next + 1)
  {
    assert Link(s, i);
    StreamPrefix(s, i);
    StrainedPrefix(s, i);
    var ps := s.printed[..i + 1];
    SurvivorsMembers(ps, s.next);
    var sent := s.chans[i + 1].log + [s.filters[i].pc.v];
    assert sent <= Survivors(ps, s.next) <= Survivors(ps, s.next + 1);
    assert sent[|sent| - 1] in Survivors(ps, s.next);
  }

  lemma LinkFrame(s: State, t: State, k: nat)
    requires Wiring(s) && Wiring(t) && k < |s.filters| && k < |t.filters| && Link(s, k)
    requires t.chans[k].log == s.chans[k].log && t.chans[k + 1].log == s.chans[k + 1].log
    requires Pending(t.filters[k]) == Pending(s.filters[k]) && t.printed[k] == s.printed[k]
    ensures Link(t, k)
  {}

  // What changes between s and t when `from` hands v to filter i.
  predicate HandedOver(s: State, t: State, i: nat, v: int)
    requires Wiring(s) && i < |s.filters|
  {
    && t == s.(next := t.next, filters := t.filters, chans := t.chans)
    && t.chans == s.chans[i := Chan(s.chans[i].closes, s.chans[i].log + [v])]
    && |t.filters| == |s.filters|
    && (forall k :: 0 <= k < |s.filters| ==> t.filters[k] == s.filters[k].(pc := t.filters[k].pc))
    && (forall k :: 0 <= k < |s.filters| && k != i && k != i - 1 ==> t.filters[k].pc == s.filters[k].pc)
    && s.filters[i].pc.Waiting?
    && t.filters[i].pc == (if Passes(v, s.printed[i]) then Holding(v) else Waiting)
    && (i > 0 ==> s.filters[i - 1].pc == Holding(v) && t.filters[i - 1].pc == Waiting && t.next == s.next)
    && (i == 0 ==> v == s.next && t.next == s.next + 1 && s.next <= s.limit && !s.genReturned)
  }

  lemma HandoffEffect(s: State, from: Proc, i: nat)
    requires Wiring(s) && Enabled(s, Handoff(from, Filt(i)))
    ensures HandedOver(s, Apply(s, Handoff(from, Filt(i))), i, Offer(s, from).value)
    ensures Writes(s, from, i)
  {
    if from.Filt? {
      assert from.i == i - 1;
    }
  }

  // Only channel i, filter i and the sender are touched; every other link is as it was.
  lemma LinksAfterHandoff(s: State, t: State, i: nat, v: int)
    requires Wiring(s) && Flow(s) && i < |s.filters| && HandedOver(s, t, i, v) && Wiring(t)
    ensures forall k :: 0 <= k < |s.filters| ==> Link(t, k)
  {
    forall k | 0 <= k < |s.filters| ensures Link(t, k) {
      assert Link(s, k);
      if k == i {
        StrainAppend(s.chans[i].log, v, s.printed[i]);
      } else if k != i - 1 {
        LinkFrame(s, t, k);
      }
    }
  }

  lemma ClosingAfterHandoff(s: State, t: State, i: nat, v: int)
    requires Wiring(s) && Closing(s) && i < |s.filters| && HandedOver(s, t, i, v) && Wiring(t)
    ensures Closing(t)
  {
    forall c | 0 <= c <= |s.filters|
      ensures WriterReturned(t, c) == WriterReturned(s, c) && ReaderReturned(t, c) == ReaderReturned(s, c)
    {}
  }

  lemma ToFilter(s: State, from: Proc, i: nat)
    requires Inv(s)
    requires Enabled(s, Handoff(from, Filt(i)))
    ensures Inv(Apply(s, Handoff(from, Filt(i))))
  {
    hide SieveOrder, LeastSurvivor, Flow, Closing, Survives;
    var t := Apply(s, Handoff(from, Filt(i)));
    var v := Offer(s, from).value;
    HandoffEffect(s, from, i);
    assert Wiring(t);
    LinksAfterHandoff(s, t, i, v);
    ClosingAfterHandoff(s, t, i, v);
    FlowAfterHandoff(s, t, i, v);
  }

  lemma FlowAfterHandoff(s: State, t: State, i: nat, v: int)
    requires Wiring(s) && Flow(s) && i < |s.filters| && HandedOver(s, t, i, v) && Wiring(t)
    requires forall k :: 0 <= k < |s.filters| ==> Link(t, k)
    ensures Flow(t)
  {
    if i == 0 {
      assert Survives(s.next, []);
    }
  }

  // A value that reaches the tail is the next prime, so the chain may grow by its filter.
  lemma TailReadsLeastSurvivor(s: State, p: Proc)
    requires Wiring(s) && Flow(s) && Closing(s)
    requires Enabled(s, Handoff(p, Tail))
    ensures LeastSurvivor(Offer(s, p).value, s.printed)
  {
    var k := |s.filters|;
    OfferContinues(s, p, k);
    var v := Offer(s, p).value;
    assert s.chans[k].log == [] && [] + [v] == [v];
    assert s.printed[..k] == s.printed;
    hide Flow, Closing, Enabled, Survivors;
    FirstIsLeast(v, s.printed, s.next + 1);
  }

  // What changes between s and t when the tail receives v and grows the chain.
  predicate Grown(s: State, t: State, v: int)
    requires Wiring(s)
  {
    var k := |s.filters|;
    && t == s.(next := t.next, filters := t.filters, chans := t.chans, printed := s.printed + [v],
               primeCount := k + 1, chainEnd := k + 1)
    && t.chans == s.chans[k := Chan(s.chans[k].closes, s.chans[k].log + [v])] + [Chan(0, [])]
    && |t.filters| == k + 1
    && t.filters[k] == Filter(v, k, k + 1, Waiting)
    && (forall i :: 0 <= i < k ==> t.filters[i] == s.filters[i].(pc := t.filters[i].pc))
    && (forall i :: 0 <= i < k - 1 ==> t.filters[i].pc == s.filters[i].pc)
    && (k > 0 ==> s.filters[k - 1].pc == Holding(v) && t.filters[k - 1].pc == Waiting && t.next == s.next)
    && (k == 0 ==> v == s.next && t.next == s.next + 1 && s.next <= s.limit && !s.genReturned)
    && !s.tailDone
  }

  lemma GrowthEffect(s: State, p: Proc)
    requires Wiring(s) && Enabled(s, Handoff(p, Tail))
    ensures Grown(s, Apply(s, Handoff(p, Tail)), Offer(s, p).value)
    ensures Writes(s, p, |s.filters|)
  {
    if p.Filt? {
      assert p.i == |s.filters| - 1;
    }
  }

  lemma WiringAfterGrowth(s: State, t: State, v: int)
    requires Wiring(s) && Grown(s, t, v) && v >= 2
    ensures Wiring(t)
  {}

  lemma NewLink(s: State, t: State, v: int)
    requires Wiring(s) && Flow(s) && Grown(s, t, v) && Wiring(t)
    ensures Link(t, |s.filters|)
  {
    StrainAppend([], v, v);
    OwnRemainders(v, v);
    assert [] + [v] == [v];
    assert t.chans[|s.filters|].log == [v];
    assert t.printed[|s.filters|] == v;
  }

  lemma OldLinks(s: State, t: State, v: int)
    requires Wiring(s) && Flow(s) && Grown(s, t, v) && Wiring(t)
    ensures forall i :: 0 <= i < |s.filters| ==> Link(t, i)
  {
    forall i | 0 <= i < |s.filters| ensures Link(t, i) {
      assert Link(s, i);
      if i < |s.filters| - 1 {
        LinkFrame(s, t, i);
      } else {
        assert t.printed[i] == s.printed[i];
        assert t.chans[i + 1].log == s.chans[i + 1].log + [v];
      }
    }
  }

  lemma FlowAfterGrowth(s: State, t: State, v: int)
    requires Wiring(s) && Flow(s) && Grown(s, t, v) && Wiring(t)
    ensures Flow(t)
  {
    NewLink(s, t, v);
    OldLinks(s, t, v);
    if s.filters == [] {
      assert Survives(s.next, []);
      assert s.chans[0].log == [];
    }
  }

  lemma ClosingAfterGrowth(s: State, t: State, v: int)
    requires Wiring(s) && Closing(s) && Grown(s, t, v) && Wiring(t)
    requires !WriterReturned(s, |s.filters|)
    ensures Closing(t)
  {
    forall c | 0 <= c <= |s.filters|
      ensures WriterReturned(t, c) == WriterReturned(s, c) && ReaderReturned(t, c) == ReaderReturned(s, c)
    {}
  }

  lemma ToTail(s: State, p: Proc)
    requires Inv(s)
    requires Enabled(s, Handoff(p, Tail))
    ensures Inv(Apply(s, Handoff(p, Tail)))
  {
    hide SieveOrder, LeastSurvivor, Flow, Closing, Survives;
    var t := Apply(s, Handoff(p, Tail));
    var v := Offer(s, p).value;
    GrowthEffect(s, p);
    OfferContinues(s, p, |s.filters|);
    TailReadsLeastSurvivor(s, p);
    WiringAfterGrowth(s, t, v);
    SieveOrderAppend(s.printed, v);
    FlowAfterGrowth(s, t, v);
    ClosingAfterGrowth(s, t, v);
  }

  lemma SieveOrderAppend(ps: seq<int>, v: int)
    requires SieveOrder(ps) && LeastSurvivor(v, ps)
    ensures SieveOrder(ps + [v])
  {
    var qs := ps + [v];
    forall i | 0 <= i < |qs| ensures LeastSurvivor(qs[i], qs[..i]) {
      if i < |ps| {
        assert qs[..i] == ps[..i];
      } else {
        assert qs[..i] == ps;
      }
    }
  }

  lemma CloseKeepsFlow(s: State, a: Action)
    requires Wiring(s) && Flow(s) && Enabled(s, a) && !a.Handoff?
    ensures Wiring(Apply(s, a)) && Flow(Apply(s, a))
    ensures Apply(s, a).printed == s.printed
  {
    var t := Apply(s, a);
    assert Wiring(t);
    forall k | 0 <= k < |t.filters| ensures Link(t, k) {
      assert Link(s, k);
    }
  }

  lemma CloseKeepsClosing(s: State, a: Action)
    requires Wiring(s) && Closing(s) && Enabled(s, a) && !a.Handoff?
    requires Wiring(Apply(s, a))
    ensures Closing(Apply(s, a))
  {
    var t := Apply(s, a);
    if a.Eof? && a.reader.Filt? {
      var i := a.reader.i;
      assert t.filters == s.filters[i := s.filters[i].(pc := Returned)];
      assert !ReaderReturned(s, i) && WriterReturned(s, i);
      forall c | 0 <= c <= |s.filters|
        ensures WriterReturned(t, c) == (WriterReturned(s, c) || c == i + 1)
        ensures ReaderReturned(t, c) == (ReaderReturned(s, c) || c == i)
      {}
      hide WriterReturned, ReaderReturned;
    }
  }

  lemma CloseKeepsInv(s: State, a: Action)
    requires Inv(s) && Enabled(s, a) && !a.Handoff?
    ensures Inv(Apply(s, a))
  {
    hide SieveOrder, Flow, Closing;
    CloseKeepsFlow(s, a);
    CloseKeepsClosing(s, a);
  }

  lemma StepKeepsInv(s: State, a: Action)
    requires Inv(s) && Enabled(s, a)
    ensures Inv(Apply(s, a))
  {
    match a
    case Handoff(from, Tail) => ToTail(s, from);
    case Handoff(from, Filt(i)) => ToFilter(s, from, i);
    case _ => CloseKeepsInv(s, a);
  }

  // ---- no deadlock ----

  predicate Final(s: State) {
    s.tailDone && s.genReturned && forall i :: 0 <= i < |s.filters| ==> s.filters[i].pc.Returned?
  }

  function ReaderOf(s: State, c: nat): Proc
    requires Wiring(s) && c <= |s.filters|
  {
    if c < |s.filters| then Filt(c) else Tail
  }

  function WriterOf(s: State, c: nat): Proc
    requires Wiring(s) && c <= |s.filters|
  {
    if c == 0 then Gen else Filt(c - 1)
  }

  // Whoever waits on channel c, some process at or upstream of c can move.
  lemma {:induction false} UpstreamCanAct(s: State, c: nat) returns (a: Action)
    requires Wiring(s) && Closing(s) && c <= |s.filters| && Listens(s, ReaderOf(s, c))
    ensures Enabled(s, a)
    decreases c
  {
    if WriterReturned(s, c) {
      a := Eof(ReaderOf(s, c));
    } else if c == 0 {
      a := if s.next <= s.limit then Handoff(Gen, ReaderOf(s, 0)) else CloseGen;
    } else if s.filters[c - 1].pc.Holding? {
      a := Handoff(Filt(c - 1), ReaderOf(s, c));
    } else {
      a := UpstreamCanAct(s, c - 1);
    }
  }

  // The end of the chain closes last, so a finished tail means everyone finished.
  lemma {:induction false} ClosedUpstream(s: State, c: nat)
    requires Wiring(s) && Closing(s) && c <= |s.filters| && ReaderReturned(s, c)
    ensures s.genReturned && forall i :: 0 <= i < c ==> s.filters[i].pc.Returned?
  {
    assert WriterReturned(s, c);
    if c > 0 {
      ClosedUpstream(s, c - 1);
    }
  }

  // A state with nothing left to do is one where every process has finished.
  lemma StuckOnlyWhenFinal(s: State)
    requires Inv(s)
    ensures (exists a :: Enabled(s, a)) <==> !Final(s)
  {
    if !s.tailDone {
      var a := UpstreamCanAct(s, |s.filters|);
    } else {
      ClosedUpstream(s, |s.filters|);
    }
  }
}

// Whole runs of the prime sieve: where they end, how long they take, and who
// discards what on the way.
module SieveRuns {
  import opened Options
  import opened Primes
  import opened Sieve

  // ---- the final state is unique ----

  function Last(limit: int): int {
    if limit < 2 then 2 else limit + 1
  }

  lemma PrimesArePositive(n: int)
    ensures Positive(PrimesBelow(n))
  {
    PrimesBelowMembers(n);
    forall i | 0 <= i < |PrimesBelow(n)| ensures PrimesBelow(n)[i] >= 2 {
      assert PrimesBelow(n)[i] in PrimesBelow(n);
    }
  }

  // The state every complete run ends in.
  ghost function Outcome(limit: int): State {
    var ps := PrimesBelow(limit + 1);
    PrimesArePositive(limit + 1);
    State(limit, Last(limit), true,
          seq(|ps|, i requires 0 <= i < |ps| => Filter(ps[i], i, i + 1, Returned)),
          seq(|ps| + 1, i requires 0 <= i <= |ps| => Chan(1, Survivors(ps[..i], Last(limit)))),
          |ps|, |ps|, ps, true)
  }

  lemma {:induction false} DrainedStream(s: State, i: nat)
    requires Wiring(s) && Flow(s) && Final(s) && i <= |s.filters|
    ensures s.chans[i].log == Survivors(s.printed[..i], s.next)
  {
    if i > 0 {
      DrainedStream(s, i - 1);
      DrainedLink(s, i - 1);
    } else {
      assert s.printed[..0] == [];
    }
  }

  lemma DrainedLink(s: State, i: nat)
    requires Wiring(s) && Flow(s) && i < |s.filters| && s.filters[i].pc.Returned?
    requires s.chans[i].log == Survivors(s.printed[..i], s.next)
    ensures s.chans[i + 1].log == Survivors(s.printed[..i + 1], s.next)
  {
    assert Link(s, i);
    StrainSurvivors(s.printed[..i], s.printed[i], s.next);
    assert s.printed[..i] + [s.printed[i]] == s.printed[..i + 1];
  }

  lemma PrintedBelowNext(s: State)
    requires Wiring(s) && Flow(s)
    ensures forall i :: 0 <= i < |s.printed| ==> s.printed[i] < s.next
  {
    forall i | 0 <= i < |s.printed| ensures s.printed[i] < s.next {
      StreamPrefix(s, i);
      SurvivorsMembers(s.printed[..i], s.next);
      assert Survivors(s.printed[..i], s.next)[0] == s.printed[i];
      assert s.printed[i] in Survivors(s.printed[..i], s.next);
    }
  }

  lemma NothingSurvivesTheChain(s: State)
    requires Wiring(s) && Flow(s) && Final(s)
    ensures forall w :: 2 <= w < s.next ==> !Survives(w, s.printed)
  {
    DrainedStream(s, |s.filters|);
    assert s.printed[..|s.filters|] == s.printed;
    SurvivorsMembers(s.printed, s.next);
    forall w | 2 <= w < s.next ensures !Survives(w, s.printed) {
      assert w !in Survivors(s.printed, s.next);
    }
  }

  lemma FinalPrintsAllPrimes(s: State)
    requires Inv(s) && Final(s)
    ensures s.next == Last(s.limit)
    ensures s.printed == PrimesBelow(s.limit + 1)
  {
    NothingSurvivesTheChain(s);
    PrintedBelowNext(s);
    NothingLeftIsComplete(s.printed, s.next);
  }

  // The network is confluent: whatever the schedule, it ends in this one state.
  lemma FinalIsOutcome(s: State)
    requires Inv(s) && Final(s)
    ensures s == Outcome(s.limit)
  {
    hide Inv, Final, Survivors, PrimesBelow, Outcome, Positive;
    FinalPrintsAllPrimes(s);
    FinalChannels(s);
    FinalFilters(s);
    OutcomeIs(s.limit);
    var t := Outcome(s.limit);
    assert s.chans == t.chans;
    assert s.filters == t.filters;
  }

  // The final state, component by component.
  lemma OutcomeIs(limit: int)
    ensures var t, ps := Outcome(limit), PrimesBelow(limit + 1);
            && Positive(ps)
            && t.limit == limit && t.next == Last(limit) && t.genReturned && t.tailDone
            && t.printed == ps && t.chainEnd == t.primeCount == |ps| == |t.filters| && |t.chans| == |ps| + 1
            && (forall i :: 0 <= i < |ps| ==> t.filters[i] == Filter(ps[i], i, i + 1, Returned))
            && (forall c :: 0 <= c <= |ps| ==> t.chans[c] == Chan(1, Survivors(ps[..c], Last(limit))))
  {
    PrimesArePositive(limit + 1);
  }

  lemma FinalChannels(s: State)
    requires Inv(s) && Final(s)
    ensures |s.chans| == |s.printed| + 1 && Positive(s.printed)
    ensures forall c :: 0 <= c <= |s.printed| ==> s.chans[c] == Chan(1, Survivors(s.printed[..c], s.next))
  {
    hide SieveOrder, Survivors;
    forall c | 0 <= c <= |s.filters| ensures s.chans[c] == Chan(1, Survivors(s.printed[..c], s.next)) {
      DrainedStream(s, c);
      assert WriterReturned(s, c);
    }
  }

  lemma FinalFilters(s: State)
    requires Inv(s) && Final(s)
    ensures s.genReturned && s.tailDone && s.chainEnd == s.primeCount == |s.printed| == |s.filters|
    ensures forall i :: 0 <= i < |s.filters| ==> s.filters[i] == Filter(s.printed[i], i, i + 1, Returned)
  {
    hide Flow, Closing, SieveOrder;
  }

  // ---- every step is progress ----

  function Weight(c: Chan): nat {
    |c.log| + c.closes
  }

  function TotalWeight(cs: seq<Chan>): nat {
    if cs == [] then 0 else TotalWeight(cs[..|cs| - 1]) + Weight(cs[|cs| - 1])
  }

  // Values handed over, channels closed, and the tail's own exit.
  function Work(s: State): nat {
    TotalWeight(s.chans) + if s.tailDone then 1 else 0
  }

  lemma {:induction false} TotalWeightUpdate(cs: seq<Chan>, c: nat, x: Chan)
    requires c < |cs|
    ensures TotalWeight(cs[c := x]) == TotalWeight(cs) - Weight(cs[c]) + Weight(x)
    decreases |cs|
  {
    var k := |cs| - 1;
    if c < k {
      TotalWeightUpdate(cs[..k], c, x);
      assert cs[c := x][..k] == cs[..k][c := x];
    } else {
      assert cs[c := x][..k] == cs[..k];
    }
  }

  lemma TotalWeightAppend(cs: seq<Chan>, x: Chan)
    ensures TotalWeight(cs + [x]) == TotalWeight(cs) + Weight(x)
  {
    assert (cs + [x])[..|cs|] == cs;
  }

  lemma {:induction false} TotalWeightBound(cs: seq<Chan>, w: nat)
    requires forall c :: 0 <= c < |cs| ==> Weight(cs[c]) <= w
    ensures TotalWeight(cs) <= |cs| * w
    decreases |cs|
  {
    if cs != [] {
      TotalWeightBound(cs[..|cs| - 1], w);
    }
  }

  lemma StepDoesOneUnit(s: State, a: Action)
    requires Wiring(s) && Enabled(s, a)
    ensures Work(Apply(s, a)) == Work(s) + 1
  {
    match a
    case Handoff(from, to) => HandoffDoesOneUnit(s, from, to);
    case CloseGen =>
      TotalWeightUpdate(s.chans, 0, s.chans[0].(closes := s.chans[0].closes + 1));
    case Eof(p) =>
      if p.Filt? {
        var c := s.filters[p.i].out;
        TotalWeightUpdate(s.chans, c, s.chans[c].(closes := s.chans[c].closes + 1));
      }
  }

  lemma HandoffDoesOneUnit(s: State, from: Proc, to: Proc)
    requires Wiring(s) && Enabled(s, Handoff(from, to))
    ensures Work(Apply(s, Handoff(from, to))) == Work(s) + 1
  {
    var c, v := InputOf(s, to), Offer(s, from).value;
    HandoffChannels(s, from, to);
    hide Apply, Enabled, Wiring;
    var more := s.chans[c].(log := s.chans[c].log + [v]);
    TotalWeightUpdate(s.chans, c, more);
    TotalWeightAppend(s.chans[c := more], Chan(0, []));
    hide TotalWeight;
  }

  lemma HandoffChannels(s: State, from: Proc, to: Proc)
    requires Wiring(s) && Enabled(s, Handoff(from, to))
    ensures var t, c := Apply(s, Handoff(from, to)), InputOf(s, to);
            var logged := s.chans[c := s.chans[c].(log := s.chans[c].log + [Offer(s, from).value])];
            && t.tailDone == s.tailDone
            && t.chans == if to.Tail? then logged + [Chan(0, [])] else logged
  {}

  function Bound(limit: int): nat {
    var n := Last(limit) - 1;
    n * n + 1
  }

  lemma WeightIsBounded(s: State, c: nat)
    requires Wiring(s) && Flow(s) && Closing(s) && c < |s.chans|
    ensures Weight(s.chans[c]) <= s.next - 1
  {
    StreamPrefix(s, c);
    SurvivorsMembers(s.printed[..c], s.next);
    assert s.chans[c].closes == if WriterReturned(s, c) then 1 else 0;
  }

  lemma AllWeightsBounded(s: State)
    requires Wiring(s) && Flow(s) && Closing(s)
    ensures TotalWeight(s.chans) <= |s.chans| * (s.next - 1)
  {
    forall c | 0 <= c < |s.chans| ensures Weight(s.chans[c]) <= s.next - 1 {
      WeightIsBounded(s, c);
    }
    TotalWeightBound(s.chans, s.next - 1);
  }

  lemma ChainIsBounded(s: State)
    requires Wiring(s) && Flow(s) && SieveOrder(s.printed)
    ensures |s.chans| <= s.next - 1 <= Last(s.limit) - 1
  {
    PrintedBelowNext(s);
    SieveOrderSize(s.printed, s.next);
  }

  lemma WorkIsBounded(s: State)
    requires Inv(s)
    ensures Work(s) <= Bound(s.limit)
  {
    AllWeightsBounded(s);
    ChainIsBounded(s);
    WithinBound(TotalWeight(s.chans), |s.chans|, s.next - 1, s.limit);
  }

  lemma WithinBound(total: nat, a: nat, b: nat, limit: int)
    requires total <= a * b && a <= b <= Last(limit) - 1
    ensures total + 1 <= Bound(limit)
  {
    var d := Last(limit) - 1;
    assert a * b <= d * b <= d * d;
  }

  // ---- whole runs ----

  // One interleaving from the start: states[k] is the state after k steps.
  ghost predicate IsRun(limit: int, states: seq<State>, actions: seq<Action>) {
    && |states| == |actions| + 1
    && states[0] == Init(limit)
    && forall k :: 0 <= k < |actions| ==>
         Wiring(states[k]) && Enabled(states[k], actions[k]) && states[k + 1] == Apply(states[k], actions[k])
  }

  lemma {:induction false} RunInvariant(limit: int, states: seq<State>, actions: seq<Action>, k: nat)
    requires IsRun(limit, states, actions) && k < |states|
    ensures Inv(states[k]) && states[k].limit == limit && Work(states[k]) == k
  {
    hide Inv, Enabled;
    if k == 0 {
      InitInv(limit);
      assert TotalWeight([Chan(0, [])]) == 0;
    } else {
      RunInvariant(limit, states, actions, k - 1);
      StepKeepsInv(states[k - 1], actions[k - 1]);
      StepDoesOneUnit(states[k - 1], actions[k - 1]);
    }
  }

  // Safety: at every moment of every interleaving the printed list is the
  // first primes in ascending order, each with its own filter.
  lemma AlwaysPrintsFirstPrimes(limit: int, states: seq<State>, actions: seq<Action>, k: nat)
    requires IsRun(limit, states, actions) && k < |states|
    ensures var s := states[k];
            && s.printed == PrimesBelow(if s.printed == [] then 2 else s.printed[|s.printed| - 1] + 1)
            && (forall v :: v in s.printed <==> s.printed != [] && v <= s.printed[|s.printed| - 1] && IsPrime(v))
            && s.primeCount == |s.printed| == |s.filters|
            && forall i :: 0 <= i < |s.printed| ==> s.filters[i].prime == s.printed[i] < s.next
  {
    RunInvariant(limit, states, actions, k);
    hide IsRun, Flow, Closing, SieveOrder, IsPrime;
    PrintedAreFirstPrimes(states[k].printed);
    PrintedBelowNext(states[k]);
  }

  lemma PrintedAreFirstPrimes(printed: seq<int>)
    requires SieveOrder(printed)
    ensures printed == PrimesBelow(if printed == [] then 2 else printed[|printed| - 1] + 1)
    ensures forall v :: v in printed <==> printed != [] && v <= printed[|printed| - 1] && IsPrime(v)
  {
    SieveOrderIsPrimes(printed);
    hide SieveOrder, IsPrime, PrimesBelow;
    if printed != [] {
      PrimesBelowMembers(printed[|printed| - 1] + 1);
    }
  }

  // No interleaving goes on for ever, and one that cannot be extended has
  // ended in the one final state: all primes printed, every process returned,
  // every channel closed exactly once. All complete runs take as many steps.
  lemma EveryRunCompletes(limit: int, states: seq<State>, actions: seq<Action>)
    requires IsRun(limit, states, actions)
    ensures |actions| <= Bound(limit)
    ensures var s := states[|actions|];
            (forall a :: !Enabled(s, a)) <==> s == Outcome(limit)
    ensures states[|actions|] == Outcome(limit) ==> |actions| == Work(Outcome(limit))
  {
    var s := states[|actions|];
    RunInvariant(limit, states, actions, |actions|);
    WorkIsBounded(s);
    StuckOnlyWhenFinal(s);
    if Final(s) {
      FinalIsOutcome(s);
    }
    if s == Outcome(limit) {
      assert Final(s);
    }
  }

  // Nobody ever offers a value on a closed channel.
  lemma NeverSendsOnClosed(limit: int, states: seq<State>, actions: seq<Action>, k: nat, p: Proc, c: nat)
    requires IsRun(limit, states, actions) && k < |states|
    requires Offer(states[k], p).Some? && Writes(states[k], p, c)
    ensures c < |states[k].chans| && states[k].chans[c].closes == 0
  {
    RunInvariant(limit, states, actions, k);
    OfferContinues(states[k], p, c);
  }

  // At every moment each channel has one writer and one reader, although the
  // reader of the chain's end changes when the tail spawns a filter.
  lemma OneWriterOneReader(limit: int, states: seq<State>, actions: seq<Action>, k: nat, p: Proc, c: nat)
    requires IsRun(limit, states, actions) && k < |states| && c < |states[k].chans|
    ensures Wiring(states[k])
    ensures Writes(states[k], p, c) <==> p == WriterOf(states[k], c)
    ensures Reads(states[k], p, c) <==> p == ReaderOf(states[k], c)
  {
    RunInvariant(limit, states, actions, k);
  }

  // ---- who discards a composite ----

  // What filter i receives and does not forward.
  predicate Discards(s: State, i: nat, v: int)
    requires Wiring(s) && i < |s.filters|
  {
    s.chans[i].log != [] && v in s.chans[i].log[1..] && v !in s.chans[i + 1].log
  }

  // What it does not forward is what fails its test.
  lemma DiscardsByTest(limit: int, i: nat, v: int)
    requires i < |Outcome(limit).filters| && Wiring(Outcome(limit))
    ensures var s := Outcome(limit);
            Discards(s, i, v) <==> s.chans[i].log != [] && v in s.chans[i].log[1..] && !Passes(v, s.printed[i])
  {
    var ps, n := PrimesBelow(limit + 1), Last(limit);
    OutcomeIs(limit);
    SurvivorsMembers(ps[..i], n);
    SurvivorsMembers(ps[..i + 1], n);
    assert ps[..i + 1] == ps[..i] + [ps[i]];
    SurvivesAppend(v, ps[..i], ps[i]);
    var log := Outcome(limit).chans[i].log;
    assert log != [] && v in log[1..] ==> v in log;
  }

  ghost predicate LeastFactor(v: int, p: int) {
    2 <= p < v && Divides(p, v) && forall d :: 2 <= d < p ==> !Divides(d, v)
  }

  // The same, by the tests filters make.
  lemma LeastFactorByTests(v: int, p: int)
    ensures LeastFactor(v, p) <==> 2 <= p < v && !Passes(v, p) && forall d :: 2 <= d < p ==> Passes(v, d)
  {
    forall d | 1 <= d ensures Passes(v, d) <==> !Divides(d, v) {
      PassesIffNoMultiple(v, d);
    }
  }

  // By the end, filter i has discarded exactly the composites whose least
  // factor is its prime.
  lemma DiscardedByLeastFactor(limit: int, i: nat, v: int)
    requires i < |Outcome(limit).filters|
    ensures Wiring(Outcome(limit))
    ensures Discards(Outcome(limit), i, v) <==> v <= limit && LeastFactor(v, Outcome(limit).printed[i])
  {
    OutcomeStreams(limit, i, v);
    DiscardsByTest(limit, i, v);
    var ps := PrimesBelow(limit + 1);
    PrimesBelowMembers(limit + 1);
    LeastFactorByTests(v, ps[i]);
    if LeastFactor(v, ps[i]) && v <= limit {
      forall j | 0 <= j < i ensures Passes(v, ps[j]) {
        assert ps[j] in ps;
      }
    }
    if Discards(Outcome(limit), i, v) {
      forall d | 2 <= d < ps[i] ensures Passes(v, d) {
        if !Passes(v, d) {
          SmallFactorIsListed(limit, v, d, i);
        }
      }
    }
  }

  // No number passes over a channel twice, so a filter discards it once.
  lemma StreamsNeverRepeat(limit: int, i: nat)
    requires i < |Outcome(limit).chans|
    ensures forall j, k :: 0 <= j < k < |Outcome(limit).chans[i].log| ==>
              Outcome(limit).chans[i].log[j] < Outcome(limit).chans[i].log[k]
  {
    PrimesArePositive(limit + 1);
    SurvivorsMembers(PrimesBelow(limit + 1)[..i], Last(limit));
  }

  // Two filters never discard the same number.
  lemma DiscardedByOne(limit: int, i: nat, k: nat, v: int)
    requires i < |Outcome(limit).filters| && k < |Outcome(limit).filters| && Wiring(Outcome(limit))
    requires Discards(Outcome(limit), i, v) && Discards(Outcome(limit), k, v)
    ensures i == k
  {
    DiscardedByLeastFactor(limit, i, v);
    DiscardedByLeastFactor(limit, k, v);
    PrimesBelowMembers(limit + 1);
  }

  // Every composite up to the limit is discarded by some filter.
  lemma EveryCompositeDiscarded(limit: int, v: int) returns (i: nat)
    requires 2 <= v <= limit && !IsPrime(v)
    ensures i < |Outcome(limit).filters| && Wiring(Outcome(limit)) && Discards(Outcome(limit), i, v)
  {
    PrimeIffPassesAllBelow(v);
    var d :| 2 <= d < v && !Passes(v, d);
    var p := LeastFactorBelow(v, d);
    LeastFactorIsPrime(v, p);
    i := PrimeIsListed(limit, p);
    DiscardedByLeastFactor(limit, i, v);
  }

  lemma PrimeIsListed(limit: int, p: int) returns (i: nat)
    requires IsPrime(p) && p <= limit
    ensures i < |Outcome(limit).filters| && Outcome(limit).printed[i] == p
  {
    var ps := PrimesBelow(limit + 1);
    PrimesBelowMembers(limit + 1);
    assert p in ps;
    i :| 0 <= i < |ps| && ps[i] == p;
  }

  lemma LeastFactorIsPrime(v: int, p: int)
    requires LeastFactor(v, p)
    ensures IsPrime(p)
  {
    LeastFactorByTests(v, p);
    PrimeIffPassesAllBelow(p);
    forall e | 2 <= e < p ensures Passes(p, e) {
      assert Passes(v, e);
      if !Passes(p, e) {
        DividesTrans(v, p, e);
      }
    }
  }

  lemma {:induction false} LeastFactorBelow(v: int, d: int) returns (p: int)
    requires 2 <= d < v && !Passes(v, d)
    ensures LeastFactor(v, p)
    decreases d
  {
    LeastFactorByTests(v, d);
    if e :| 2 <= e < d && !Passes(v, e) {
      p := LeastFactorBelow(v, e);
    } else {
      p := d;
    }
  }

  // The stream filter i reads, by membership: its own prime first, then the rest.
  lemma OutcomeStreams(limit: int, i: nat, v: int)
    requires i < |Outcome(limit).filters|
    ensures Wiring(Outcome(limit))
    ensures var s := Outcome(limit);
            && s.chans[i].log != []
            && (v in s.chans[i].log[1..] <==> s.printed[i] < v <= limit && Survives(v, s.printed[..i]))
  {
    var s := Outcome(limit);
    PrimesArePositive(limit + 1);
    assert Wiring(s);
    PrimesBelowMembers(limit + 1);
    var log := Survivors(s.printed[..i], s.next);
    SurvivorsMembers(s.printed[..i], s.next);
    OutcomeHead(limit, i);
    assert log == [log[0]] + log[1..];
    if v in log[1..] {
      var j :| 0 <= j < |log| - 1 && log[1..][j] == v;
      assert log[j + 1] == v && log[0] < log[j + 1];
      assert v in log;
    }
  }

  lemma OutcomeHead(limit: int, i: nat)
    requires i < |Outcome(limit).filters|
    ensures Positive(Outcome(limit).printed)
    ensures var s := Outcome(limit);
            var log := Survivors(s.printed[..i], s.next);
            log != [] && log[0] == s.printed[i]
  {
    var ps := PrimesBelow(limit + 1);
    PrimesArePositive(limit + 1);
    PrimesBelowMembers(limit + 1);
    var log := Survivors(ps[..i], Last(limit));
    SurvivorsMembers(ps[..i], Last(limit));
    assert ps[i] in ps;
    PrimeIffPassesAllBelow(ps[i]);
    forall j | 0 <= j < i ensures Passes(ps[i], ps[j]) {
      assert ps[j] in ps && IsPrime(ps[j]);
    }
    hide IsPrime;
    assert ps[i] in log;
    if log[0] < ps[i] {
      assert log[0] in log;
      var d := PrimeDivisor(log[0]);
      PrimeBelowIsListed(limit, d, i);
    }
  }

  // A prime smaller than the i-th listed one is listed before it.
  lemma PrimeBelowIsListed(limit: int, d: int, i: nat)
    requires i < |PrimesBelow(limit + 1)| && IsPrime(d) && d < PrimesBelow(limit + 1)[i]
    ensures d in PrimesBelow(limit + 1)[..i]
  {
    var ps := PrimesBelow(limit + 1);
    PrimesBelowMembers(limit + 1);
    assert ps[i] in ps;
    assert d in ps;
    var j :| 0 <= j < |ps| && ps[j] == d;
    assert ps[..i][j] == d;
  }

  lemma SmallFactorIsListed(limit: int, v: int, d: int, i: nat)
    requires i < |PrimesBelow(limit + 1)| && Positive(PrimesBelow(limit + 1))
    requires 2 <= d < PrimesBelow(limit + 1)[i] && !Passes(v, d)
    ensures !Survives(v, PrimesBelow(limit + 1)[..i])
  {
    var p := PrimeDivisor(d);
    DividesTrans(v, d, p);
    PrimeBelowIsListed(limit, p, i);
    var before := PrimesBelow(limit + 1)[..i];
    var j :| 0 <= j < |before| && before[j] == p;
  }

  // ---- any scheduler ----

  function Procs(s: State): set<Proc> {
    {Gen, Tail} + (set i | 0 <= i < |s.filters| :: Filt(i))
  }

  function Candidates(s: State): set<Action> {
    (set p, q | p in Procs(s) && q in Procs(s) :: Handoff(p, q)) + {CloseGen} + (set p | p in Procs(s) :: Eof(p))
  }

  lemma CandidatesSuffice(s: State, a: Action)
    requires Enabled(s, a)
    ensures a in Candidates(s)
  {}

  // Runs the network, letting an arbitrary scheduler pick the next step.
  method Run(limit: int) returns (printed: seq<int>, primeCount: nat, steps: nat)
    ensures forall v :: v in printed <==> 2 <= v <= limit && forall d, k :: 2 <= d && 2 <= k ==> d * k != v
    ensures forall i, j :: 0 <= i < j < |printed| ==> printed[i] < printed[j]
    ensures primeCount == |printed|
    ensures steps == Work(Outcome(limit))
  {
    hide Inv, Enabled, Final;
    var s := Init(limit);
    steps := 0;
    InitInv(limit);
    assert TotalWeight([Chan(0, [])]) == 0;
    while !Final(s)
      invariant Inv(s) && s.limit == limit && Work(s) == steps
      decreases Bound(limit) - Work(s)
    {
      StuckOnlyWhenFinal(s);
      InvWires(s);
      ghost var witness' :| Enabled(s, witness');
      CandidatesSuffice(s, witness');
      var a :| a in Candidates(s) && Enabled(s, a);
      StepKeepsInv(s, a);
      StepDoesOneUnit(s, a);
      s := Apply(s, a);
      WorkIsBounded(s);
      steps := steps + 1;
    }
    FinalIsOutcome(s);
    printed, primeCount := s.printed, s.primeCount;
    PrimesBelowMembers(limit + 1);
  }
}

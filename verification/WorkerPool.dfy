// The worker pool whose driver writes every job before it reads any result:
// jobs go out over an unbuffered channel, results come back over a bounded one.
module WorkerPool {
  import opened Workers

  datatype Phase = Writing | Reading | Joining | Done

  datatype State = State(
    jobs: nat,              // how many jobs there are
    capacity: nat,          // of the results channel; 0 means rendezvous
    phase: Phase,           // where the driver is
    given: nat,             // jobs handed out so far: 1, 2, ..., given
    jobsClosed: bool,
    workers: seq<Worker>,
    results: seq<int>,      // the results channel's buffer, by job
    collected: seq<int>,    // what the driver has read
    resultsClosed: bool)

  datatype Action =
    | Give(w: nat)      // the driver's write meets worker w's read
    | Finish(w: nat)    // worker w is done with its job and goes to write
    | Push(w: nat)      // its write finds room in the buffer
    | CloseJobs
    | Read              // the driver takes a buffered result
    | Meet(w: nat)      // the driver waits on an empty buffer and worker w writes
    | StopReading
    | Exit(w: nat)      // worker w's read fails: the jobs channel is closed
    | Join

  function Init(jobs: nat, capacity: nat, workers: nat): State {
    State(jobs, capacity, Writing, 0, false, seq(workers, _ => Idle), [], [], false)
  }

  predicate Enabled(s: State, a: Action) {
    match a
    case Give(w) => s.phase == Writing && s.given < s.jobs && w < |s.workers| && s.workers[w].Idle?
    case Finish(w) => w < |s.workers| && s.workers[w].Busy?
    case Push(w) => w < |s.workers| && s.workers[w].Blocked? && |s.results| < s.capacity
    case CloseJobs => s.phase == Writing && s.given == s.jobs
    case Read => s.phase == Reading && |s.collected| < s.jobs && s.results != []
    case Meet(w) =>
      s.phase == Reading && |s.collected| < s.jobs && s.results == [] && w < |s.workers| && s.workers[w].Blocked?
    case StopReading => s.phase == Reading && |s.collected| >= s.jobs
    case Exit(w) => w < |s.workers| && s.workers[w].Idle? && s.jobsClosed
    case Join => s.phase == Joining && forall w :: 0 <= w < |s.workers| ==> s.workers[w].Exited?
  }

  function Apply(s: State, a: Action): State
    requires Enabled(s, a)
  {
    match a
    case Give(w) => s.(given := s.given + 1, workers := s.workers[w := Busy(s.given + 1)])
    case Finish(w) => s.(workers := s.workers[w := Blocked(s.workers[w].job)])
    case Push(w) => s.(workers := s.workers[w := Idle], results := s.results + [s.workers[w].job])
    case CloseJobs => s.(jobsClosed := true, phase := Reading)
    case Read => s.(results := s.results[1..], collected := s.collected + [s.results[0]])
    case Meet(w) => s.(workers := s.workers[w := Idle], collected := s.collected + [s.workers[w].job])
    case StopReading => s.(phase := Joining)
    case Exit(w) => s.(workers := s.workers[w := Exited])
    case Join => s.(phase := Done, resultsClosed := true)
  }

  // ---- the invariant ----

  // When the pool can finish: the buffer and the workers' hands together must
  // have room for every job, and somebody must do them.
  predicate Fits(jobs: nat, capacity: nat, workers: nat) {
    jobs == 0 || (workers >= 1 && jobs <= capacity + workers)
  }

  // Every job handed out is in exactly one place.
  function Tally(s: State): multiset<int> {
    multiset(s.collected) + multiset(s.results) + Held(s.workers)
  }

  predicate Phases(s: State) {
    && |s.results| <= s.capacity
    && s.given <= s.jobs
    && (s.phase == Writing <==> !s.jobsClosed)
    && (s.phase == Writing ==> s.collected == [])
    && (s.phase != Writing ==> s.given == s.jobs && Fits(s.jobs, s.capacity, |s.workers|))
    && (s.phase == Joining || s.phase == Done ==> |s.collected| == s.jobs)
    && (s.resultsClosed <==> s.phase == Done)
    && (s.given > 0 ==> s.workers != [])
  }

  predicate Exits(s: State) {
    && (!s.jobsClosed ==> forall w :: 0 <= w < |s.workers| ==> !s.workers[w].Exited?)
    && (s.phase == Done ==> forall w :: 0 <= w < |s.workers| ==> s.workers[w].Exited?)
  }

  predicate Inv(s: State) {
    Tally(s) == Jobs(s.given) && Phases(s) && Exits(s)
  }

  lemma Total(s: State)
    requires Inv(s)
    ensures |s.collected| + |s.results| + |Held(s.workers)| == s.given
    ensures |Held(s.workers)| <= |s.workers|
  {
    JobsSize(s.given);
    HeldSize(s.workers);
  }

  lemma InitInv(jobs: nat, capacity: nat, workers: nat)
    ensures Inv(Init(jobs, capacity, workers))
  {
    NobodyHolds(workers);
  }

  lemma Moved(c: multiset<int>, r: multiset<int>, j: multiset<int>, h: multiset<int>, h': multiset<int>)
    requires h' + j == h
    ensures c + (r + j) + h' == c + r + h
    ensures (c + j) + r + h' == c + r + h
  {
    assert h' == h - j;
  }

  // A worker changes hands-state; the rest of the tally is as it was.
  lemma WorkerTally(s: State, t: State, w: nat, x: Worker)
    requires w < |s.workers| && t.workers == s.workers[w := x]
    requires t.results == s.results && t.collected == s.collected
    ensures Tally(t) + JobOf(s.workers[w]) == Tally(s) + JobOf(x)
  {
    UpdateHeld(s.workers, w, x);
    assert Tally(t) + JobOf(s.workers[w]) ==
           multiset(s.collected) + multiset(s.results) + (Held(t.workers) + JobOf(s.workers[w]));
    assert Tally(s) + JobOf(x) == multiset(s.collected) + multiset(s.results) + (Held(s.workers) + JobOf(x));
  }

  lemma PushTally(s: State, w: nat)
    requires Enabled(s, Push(w))
    ensures Tally(Apply(s, Push(w))) == Tally(s)
  {
    var t := Apply(s, Push(w));
    UpdateHeld(s.workers, w, Idle);
    assert multiset(t.results) == multiset(s.results) + JobOf(s.workers[w]);
    Moved(multiset(s.collected), multiset(s.results), JobOf(s.workers[w]), Held(s.workers), Held(t.workers));
  }

  lemma MeetTally(s: State, w: nat)
    requires Enabled(s, Meet(w))
    ensures Tally(Apply(s, Meet(w))) == Tally(s)
  {
    var t := Apply(s, Meet(w));
    UpdateHeld(s.workers, w, Idle);
    assert multiset(t.collected) == multiset(s.collected) + JobOf(s.workers[w]);
    Moved(multiset(s.collected), multiset(s.results), JobOf(s.workers[w]), Held(s.workers), Held(t.workers));
  }

  lemma DriverTally(s: State, a: Action)
    requires Enabled(s, a) && (a.CloseJobs? || a.StopReading? || a.Join?)
    ensures Tally(Apply(s, a)) == Tally(s)
  {}

  lemma HandsTally(s: State, a: Action)
    requires Enabled(s, a) && (a.Give? || a.Finish? || a.Exit?)
    ensures a.Give? ==> Tally(Apply(s, a)) == Tally(s) + multiset{s.given + 1}
    ensures !a.Give? ==> Tally(Apply(s, a)) == Tally(s)
  {
    hide Tally, Held;
    var t := Apply(s, a);
    var before, after := s.workers[a.w], t.workers[a.w];
    WorkerTally(s, t, a.w, after);
    if a.Give? {
      PlusNothing(Tally(t), Tally(s) + multiset{s.given + 1});
    } else {
      assert JobOf(before) == JobOf(after);
      Cancel(Tally(t), Tally(s), JobOf(before));
    }
  }

  lemma StepTally(s: State, a: Action)
    requires Enabled(s, a)
    ensures a.Give? ==> Tally(Apply(s, a)) == Tally(s) + multiset{s.given + 1}
    ensures !a.Give? ==> Tally(Apply(s, a)) == Tally(s)
  {
    hide Tally, Held;
    match a
    case Push(w) => PushTally(s, w);
    case Meet(w) => MeetTally(s, w);
    case Read => ReadTally(s);
    case CloseJobs => DriverTally(s, a);
    case StopReading => DriverTally(s, a);
    case Join => DriverTally(s, a);
    case _ => HandsTally(s, a);
  }

  lemma ReadTally(s: State)
    requires Enabled(s, Read)
    ensures Tally(Apply(s, Read)) == Tally(s)
  {
    assert s.results == [s.results[0]] + s.results[1..];
  }

  lemma StepKeepsPhases(s: State, a: Action)
    requires Phases(s) && Enabled(s, a)
    requires |s.collected| + |s.results| <= s.given && s.given <= s.capacity + |s.workers| + |s.collected|
    ensures Phases(Apply(s, a))
  {}

  lemma StepKeepsExits(s: State, a: Action)
    requires Exits(s) && Phases(s) && Enabled(s, a)
    ensures Exits(Apply(s, a))
  {}

  lemma StepKeepsInv(s: State, a: Action)
    requires Inv(s) && Enabled(s, a)
    ensures Inv(Apply(s, a))
  {
    hide Tally, Exits, Held, Jobs, Enabled;
    Total(s);
    StepKeepsPhases(s, a);
    hide Phases;
    StepTally(s, a);
    StepKeepsExits(s, a);
    NextJob(s.given);
    GivenAfter(s, a);
    hide Apply;
  }

  lemma NextJob(n: nat)
    ensures Jobs(n + 1) == Jobs(n) + multiset{n + 1}
  {}

  lemma GivenAfter(s: State, a: Action)
    requires Enabled(s, a)
    ensures Apply(s, a).given == s.given + if a.Give? then 1 else 0
  {}

  // ---- progress ----

  function PhaseNo(p: Phase): nat {
    match p
    case Writing => 0
    case Reading => 1
    case Joining => 2
    case Done => 3
  }

  function Progress(s: State): nat {
    Scores(s.workers) + 3 * |s.results| + 4 * |s.collected| + PhaseNo(s.phase)
  }

  function Bound(jobs: nat, workers: nat): nat {
    4 * jobs + workers + 3
  }

  lemma StepAdvances(s: State, a: Action)
    requires Enabled(s, a)
    ensures Progress(s) < Progress(Apply(s, a))
  {
    if a.Give? || a.Finish? || a.Push? || a.Meet? || a.Exit? {
      UpdateScores(s.workers, a.w, Apply(s, a).workers[a.w]);
    }
  }

  lemma ProgressIsBounded(s: State)
    requires Inv(s)
    ensures Progress(s) <= Bound(s.jobs, |s.workers|)
  {
    Total(s);
    HeldSize(s.workers);
  }

  lemma StepProgresses(s: State, a: Action)
    requires Inv(s) && Enabled(s, a)
    ensures Progress(s) < Progress(Apply(s, a)) <= Bound(s.jobs, |s.workers|)
    ensures var t := Apply(s, a); t.jobs == s.jobs && t.capacity == s.capacity && |t.workers| == |s.workers|
  {
    hide Inv, Progress;
    StepKeepsInv(s, a);
    StepAdvances(s, a);
    ProgressIsBounded(Apply(s, a));
  }

  ghost predicate Stuck(s: State) {
    forall a :: !Enabled(s, a)
  }

  // While the driver is still writing, only full hands and a full buffer stop everyone.
  lemma WritingCanMove(s: State) returns (a: Action)
    requires Inv(s) && s.phase == Writing && Fits(s.jobs, s.capacity, |s.workers|)
    ensures Enabled(s, a)
  {
    Total(s);
    EmptyHands(s.workers);
    FullHands(s.workers);
    if s.given == s.jobs {
      a := CloseJobs;
    } else if w :| 0 <= w < |s.workers| && s.workers[w].Idle? {
      a := Give(w);
    } else if w :| 0 <= w < |s.workers| && s.workers[w].Busy? {
      a := Finish(w);
    } else {
      a := Push(0);
    }
  }

  lemma LaterCanMove(s: State) returns (a: Action)
    requires Inv(s) && s.phase != Writing && s.phase != Done
    ensures Enabled(s, a)
  {
    Total(s);
    EmptyHands(s.workers);
    FullHands(s.workers);
    if w :| 0 <= w < |s.workers| && s.workers[w].Busy? {
      a := Finish(w);
    } else if w :| 0 <= w < |s.workers| && s.workers[w].Idle? {
      a := Exit(w);
    } else if s.phase == Joining {
      a := Join;
    } else if |s.collected| >= s.jobs {
      a := StopReading;
    } else if s.results != [] {
      a := Read;
    } else {
      var w :| 0 <= w < |s.workers| && s.workers[w].Blocked?;
      a := Meet(w);
    }
  }

  // A state nothing can leave: finished if the jobs fit; otherwise the driver
  // is stuck in its first loop, every worker stuck on a full results channel.
  lemma StuckStates(s: State)
    requires Inv(s)
    ensures s.phase == Done ==> Stuck(s)
    ensures Stuck(s) && Fits(s.jobs, s.capacity, |s.workers|) ==> s.phase == Done
    ensures Stuck(s) && !Fits(s.jobs, s.capacity, |s.workers|) ==>
              && s.phase == Writing
              && (|s.workers| > 0 ==> s.given == s.capacity + |s.workers| && |s.results| == s.capacity
                                      && forall w :: 0 <= w < |s.workers| ==> s.workers[w].Blocked?)
  {
    if Stuck(s) {
      if s.phase != Writing && s.phase != Done {
        var a := LaterCanMove(s);
      } else if s.phase == Writing {
        if Fits(s.jobs, s.capacity, |s.workers|) {
          var a := WritingCanMove(s);
        } else if |s.workers| > 0 {
          AllBlocked(s);
        }
      }
    }
  }

  lemma AllBlocked(s: State)
    requires Inv(s) && Stuck(s) && s.phase == Writing && |s.workers| > 0
    requires !Fits(s.jobs, s.capacity, |s.workers|)
    ensures s.given == s.capacity + |s.workers| && |s.results| == s.capacity
    ensures forall w :: 0 <= w < |s.workers| ==> s.workers[w].Blocked?
  {
    Total(s);
    FullHands(s.workers);
    assert s.given < s.jobs by {
      assert s.given == s.jobs ==> Enabled(s, CloseJobs);
    }
    forall w | 0 <= w < |s.workers| ensures s.workers[w].Blocked? {
      assert s.workers[w].Idle? ==> Enabled(s, Give(w));
      assert s.workers[w].Busy? ==> Enabled(s, Finish(w));
    }
    assert !Enabled(s, Push(0));
  }

  lemma FinalTally(s: State)
    requires Inv(s)
    ensures s.phase == Writing ==> s.collected == []
    ensures s.phase == Done ==> multiset(s.collected) == Jobs(s.jobs) && s.results == []
                                && s.jobsClosed && s.resultsClosed
    ensures s.phase == Done ==> forall w :: 0 <= w < |s.workers| ==> s.workers[w].Exited?
  {
    Total(s);
  }

  // ---- whole runs ----

  ghost predicate IsRun(jobs: nat, capacity: nat, workers: nat, states: seq<State>, actions: seq<Action>) {
    && |states| == |actions| + 1
    && states[0] == Init(jobs, capacity, workers)
    && forall k :: 0 <= k < |actions| ==>
         Enabled(states[k], actions[k]) && states[k + 1] == Apply(states[k], actions[k])
  }

  lemma {:induction false} RunInvariant(
    jobs: nat, capacity: nat, workers: nat, states: seq<State>, actions: seq<Action>, k: nat)
    requires IsRun(jobs, capacity, workers, states, actions) && k < |states|
    ensures Inv(states[k]) && Progress(states[k]) >= k
    ensures states[k].jobs == jobs && states[k].capacity == capacity && |states[k].workers| == workers
  {
    hide Inv, Progress, Enabled;
    if k == 0 {
      InitInv(jobs, capacity, workers);
    } else {
      RunInvariant(jobs, capacity, workers, states, actions, k - 1);
      StepKeepsInv(states[k - 1], actions[k - 1]);
      StepProgresses(states[k - 1], actions[k - 1]);
    }
  }

  // Every run ends, and it ends with all results collected exactly when the
  // results channel and the workers together have room for all jobs. The
  // outcome does not depend on the schedule: no run of a pool that fits gets
  // stuck, and no run of one that does not fit finishes.
  lemma FinishesIffFits(jobs: nat, capacity: nat, workers: nat, states: seq<State>, actions: seq<Action>)
    requires IsRun(jobs, capacity, workers, states, actions)
    ensures |actions| <= Bound(jobs, workers)
    ensures var s := states[|actions|];
            Stuck(s) ==> (s.phase == Done <==> Fits(jobs, capacity, workers))
    ensures var s := states[|actions|];
            s.phase == Done ==>
              && EachOnce(multiset(s.collected), jobs) && |s.workers| == workers
              && s.results == [] && s.jobsClosed && s.resultsClosed
              && forall w :: 0 <= w < workers ==> s.workers[w].Exited?
  {
    hide Inv, Progress, Enabled;
    var n := |actions|;
    RunInvariant(jobs, capacity, workers, states, actions, n);
    if n > 0 {
      RunInvariant(jobs, capacity, workers, states, actions, n - 1);
      StepProgresses(states[n - 1], actions[n - 1]);
    }
    StuckStates(states[n]);
    FinalTally(states[n]);
    JobsOnce(jobs);
    hide EachOnce;
  }

  // ---- the order of results ----

  function InHand(w: Worker): seq<int> {
    if HasJob(w) then [w.job] else []
  }

  // With a single worker nothing is ever out of order.
  predicate InSequence(s: State) {
    |s.workers| == 1 ==> s.collected + s.results + InHand(s.workers[0]) == JobList(s.given)
  }

  lemma StepKeepsSequence(s: State, a: Action)
    requires InSequence(s) && Enabled(s, a)
    ensures InSequence(Apply(s, a))
  {
    if |s.workers| == 1 {
      var t, hand := Apply(s, a), InHand(s.workers[0]);
      if a.Give? {
        assert t.collected + t.results + InHand(t.workers[0]) == (s.collected + s.results + hand) + [t.given];
      } else if a.Push? || a.Meet? {
        assert t.collected + t.results + [] == s.collected + s.results + hand;
      } else if a.Read? {
        assert t.collected + t.results == s.collected + s.results;
      }
    }
  }

  // Results come out of the channel first in, first out: one worker's results
  // are collected in the order of the jobs.
  lemma {:induction false} OneWorkerInOrder(
    jobs: nat, capacity: nat, states: seq<State>, actions: seq<Action>, k: nat)
    requires IsRun(jobs, capacity, 1, states, actions) && k < |states|
    ensures InSequence(states[k])
    ensures states[k].phase == Done ==> states[k].collected == JobList(jobs)
  {
    RunInvariant(jobs, capacity, 1, states, actions, k);
    if k > 0 {
      OneWorkerInOrder(jobs, capacity, states, actions, k - 1);
      StepKeepsSequence(states[k - 1], actions[k - 1]);
    }
    OneWorkerDone(states[k]);
  }

  lemma OneWorkerDone(s: State)
    requires Inv(s) && InSequence(s)
    ensures |s.workers| == 1 && s.phase == Done ==> s.collected == JobList(s.jobs)
  {
    FinalTally(s);
    assert s.phase == Done ==> s.collected + [] + [] == s.collected;
  }

  // The code's own choice: a results channel as large as the number of jobs.
  lemma EnoughCapacityIsSafe(jobs: nat, capacity: nat, workers: nat, states: seq<State>, actions: seq<Action>)
    requires IsRun(jobs, capacity, workers, states, actions)
    requires workers >= 1 && capacity >= jobs
    ensures Stuck(states[|actions|]) ==> states[|actions|].phase == Done
  {
    FinishesIffFits(jobs, capacity, workers, states, actions);
  }

  // ---- any scheduler ----

  function Candidates(s: State): set<Action> {
    {CloseJobs, Read, StopReading, Join}
    + (set w | 0 <= w < |s.workers| :: Give(w)) + (set w | 0 <= w < |s.workers| :: Finish(w))
    + (set w | 0 <= w < |s.workers| :: Push(w)) + (set w | 0 <= w < |s.workers| :: Meet(w))
    + (set w | 0 <= w < |s.workers| :: Exit(w))
  }

  // worker_pool_demo under an arbitrary scheduler.
  method Run(jobs: nat, capacity: nat, workers: nat) returns (finished: bool, collected: seq<int>)
    ensures finished <==> Fits(jobs, capacity, workers)
    ensures finished ==> EachOnce(multiset(collected), jobs)
    ensures !finished ==> collected == []
  {
    var s := Init(jobs, capacity, workers);
    InitInv(jobs, capacity, workers);
    hide Inv, Progress, Fits, EachOnce;
    while exists a :: a in Candidates(s) && Enabled(s, a)
      invariant Inv(s) && s.jobs == jobs && s.capacity == capacity && |s.workers| == workers
      decreases Bound(jobs, workers) - Progress(s)
    {
      var a :| a in Candidates(s) && Enabled(s, a);
      StepKeepsInv(s, a);
      StepProgresses(s, a);
      s := Apply(s, a);
    }
    assert Stuck(s) by {
      forall a ensures !Enabled(s, a) {
        assert Enabled(s, a) ==> a in Candidates(s);
      }
    }
    StuckStates(s);
    FinalTally(s);
    JobsOnce(jobs);
    finished, collected := s.phase == Done, s.collected;
  }
}

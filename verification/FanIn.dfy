// Fan-out and fan-in: a dispatcher hands jobs to whichever worker is free, all
// workers write to one merged channel, and a closer shuts it after the last
// worker has returned. Both channels are unbuffered.
module FanIn {
  import opened Workers

  // "worker w finished job j"
  datatype Line = Line(worker: nat, job: int)

  datatype State = State(
    jobs: nat,
    given: nat,               // jobs handed out so far: 1, 2, ..., given
    jobsClosed: bool,         // the dispatcher has closed its channel and returned
    workers: seq<Worker>,
    takenBy: seq<nat>,        // which worker took job k, at k - 1
    mergedCloses: nat,        // how often the closer has closed `merged`
    lines: seq<Line>,         // what the consumer has received
    consumerDone: bool)

  datatype Action =
    | Give(w: nat)       // dispatcher and worker w meet on the jobs channel
    | Finish(w: nat)     // worker w's timer expires and it goes to send
    | Deliver(w: nat)    // worker w and the consumer meet on `merged`
    | CloseJobs
    | Leave(w: nat)      // worker w finds the jobs channel closed and returns
    | CloseMerged        // all workers have returned
    | ConsumerEof

  function Init(jobs: nat, workers: nat): State {
    State(jobs, 0, false, seq(workers, _ => Idle), [], 0, [], false)
  }

  predicate AllReturned(s: State) {
    forall w :: 0 <= w < |s.workers| ==> s.workers[w].Exited?
  }

  predicate Enabled(s: State, a: Action) {
    match a
    case Give(w) => !s.jobsClosed && s.given < s.jobs && w < |s.workers| && s.workers[w].Idle?
    case Finish(w) => w < |s.workers| && s.workers[w].Busy?
    case Deliver(w) => !s.consumerDone && w < |s.workers| && s.workers[w].Blocked?
    case CloseJobs => !s.jobsClosed && s.given == s.jobs
    case Leave(w) => s.jobsClosed && w < |s.workers| && s.workers[w].Idle?
    case CloseMerged => s.mergedCloses == 0 && AllReturned(s)
    case ConsumerEof => !s.consumerDone && s.mergedCloses > 0
  }

  function Apply(s: State, a: Action): State
    requires Enabled(s, a)
  {
    match a
    case Give(w) =>
      s.(given := s.given + 1, workers := s.workers[w := Busy(s.given + 1)], takenBy := s.takenBy + [w])
    case Finish(w) => s.(workers := s.workers[w := Blocked(s.workers[w].job)])
    case Deliver(w) => s.(lines := s.lines + [Line(w, s.workers[w].job)], workers := s.workers[w := Idle])
    case CloseJobs => s.(jobsClosed := true)
    case Leave(w) => s.(workers := s.workers[w := Exited])
    case CloseMerged => s.(mergedCloses := s.mergedCloses + 1)
    case ConsumerEof => s.(consumerDone := true)
  }

  // The jobs the consumer has heard of.
  function Heard(lines: seq<Line>): multiset<int> {
    if lines == [] then multiset{} else Heard(lines[..|lines| - 1]) + multiset{lines[|lines| - 1].job}
  }

  lemma HeardAppend(lines: seq<Line>, l: Line)
    ensures Heard(lines + [l]) == Heard(lines) + multiset{l.job}
  {
    assert (lines + [l])[..|lines|] == lines;
  }

  lemma {:induction false} HeardSize(lines: seq<Line>)
    ensures |Heard(lines)| == |lines|
  {
    if lines != [] {
      HeardSize(lines[..|lines| - 1]);
    }
  }

  // ---- the invariant ----

  // Every job handed out is in one worker's hands or has been reported once.
  predicate Conserved(s: State) {
    Heard(s.lines) + Held(s.workers) == Jobs(s.given)
  }

  predicate Shutdown(s: State) {
    && s.given <= s.jobs
    && (s.jobsClosed ==> s.given == s.jobs)
    && (s.given > 0 ==> s.workers != [])
    && (forall w :: 0 <= w < |s.workers| && s.workers[w].Exited? ==> s.jobsClosed)
    && s.mergedCloses <= 1
    && (s.mergedCloses > 0 ==> AllReturned(s))
    && (s.consumerDone ==> s.mergedCloses > 0)
  }

  // A job is in the hands of, or reported by, the worker that took it.
  predicate Signed(s: State) {
    && |s.takenBy| == s.given
    && (forall w :: 0 <= w < |s.workers| && HasJob(s.workers[w]) ==>
          1 <= s.workers[w].job <= s.given && s.takenBy[s.workers[w].job - 1] == w)
    && (forall k :: 0 <= k < |s.lines| ==>
          1 <= s.lines[k].job <= s.given && s.takenBy[s.lines[k].job - 1] == s.lines[k].worker)
  }

  predicate Inv(s: State) {
    Conserved(s) && Shutdown(s) && Signed(s)
  }

  lemma StepKeepsSigned(s: State, a: Action)
    requires Signed(s) && Enabled(s, a)
    ensures Signed(Apply(s, a))
  {}

  lemma InitInv(jobs: nat, workers: nat)
    ensures Inv(Init(jobs, workers))
  {
    NobodyHolds(workers);
  }

  lemma AddOne(heard: multiset<int>, held: multiset<int>, after: multiset<int>, job: int)
    requires after == held + multiset{job}
    ensures heard + after == (heard + held) + multiset{job}
    ensures (heard + multiset{job}) + held == heard + after
  {}

  lemma GiveConserves(s: State, w: nat)
    requires Conserved(s) && Enabled(s, Give(w))
    ensures Conserved(Apply(s, Give(w)))
  {
    hide Held, Heard;
    TakesJob(s.workers, w, s.given + 1);
    AddOne(Heard(s.lines), Held(s.workers), Held(s.workers[w := Busy(s.given + 1)]), s.given + 1);
  }

  lemma DeliverConserves(s: State, w: nat)
    requires Conserved(s) && Enabled(s, Deliver(w))
    ensures Conserved(Apply(s, Deliver(w)))
  {
    hide Held, Heard;
    LosesJob(s.workers, w);
    HeardAppend(s.lines, Line(w, s.workers[w].job));
    AddOne(Heard(s.lines), Held(s.workers[w := Idle]), Held(s.workers), s.workers[w].job);
  }

  lemma HandsConserve(s: State, w: nat, x: Worker)
    requires Conserved(s) && w < |s.workers| && JobOf(x) == JobOf(s.workers[w])
    ensures Conserved(s.(workers := s.workers[w := x]))
  {
    UpdateHeld(s.workers, w, x);
    Cancel(Held(s.workers[w := x]), Held(s.workers), JobOf(x));
  }

  lemma StepConserves(s: State, a: Action)
    requires Conserved(s) && Enabled(s, a)
    ensures Conserved(Apply(s, a))
  {
    match a
    case Give(w) => GiveConserves(s, w);
    case Deliver(w) => DeliverConserves(s, w);
    case Finish(w) => HandsConserve(s, w, Blocked(s.workers[w].job));
    case Leave(w) => HandsConserve(s, w, Exited);
    case _ =>
  }

  lemma StepKeepsInv(s: State, a: Action)
    requires Inv(s) && Enabled(s, a)
    ensures Inv(Apply(s, a))
  {
    hide Conserved, Signed;
    StepConserves(s, a);
    StepKeepsSigned(s, a);
  }

  // ---- progress ----

  function Progress(s: State): nat {
    Scores(s.workers) + 3 * |s.lines| + s.mergedCloses
    + (if s.jobsClosed then 1 else 0) + if s.consumerDone then 1 else 0
  }

  function Bound(jobs: nat, workers: nat): nat {
    3 * jobs + workers + 3
  }

  lemma StepAdvances(s: State, a: Action)
    requires Enabled(s, a)
    ensures Progress(s) < Progress(Apply(s, a))
    ensures Apply(s, a).jobs == s.jobs && |Apply(s, a).workers| == |s.workers|
  {
    if a.Give? || a.Finish? || a.Deliver? || a.Leave? {
      UpdateScores(s.workers, a.w, Apply(s, a).workers[a.w]);
    }
  }

  lemma Total(s: State)
    requires Inv(s)
    ensures |s.lines| + |Held(s.workers)| == s.given
  {
    HeardSize(s.lines);
    JobsSize(s.given);
    assert |Heard(s.lines) + Held(s.workers)| == |Heard(s.lines)| + |Held(s.workers)|;
  }

  lemma ProgressIsBounded(s: State)
    requires Inv(s)
    ensures Progress(s) <= Bound(s.jobs, |s.workers|)
  {
    Total(s);
    HeldSize(s.workers);
  }

  predicate Finished(s: State) {
    s.jobsClosed && AllReturned(s) && s.mergedCloses == 1 && s.consumerDone
  }

  // With at least one worker, someone can always move until everyone has finished.
  lemma CanMove(s: State) returns (a: Action)
    requires Inv(s) && !Finished(s) && (s.jobs == 0 || s.workers != [])
    ensures Enabled(s, a)
  {
    if w :| 0 <= w < |s.workers| && s.workers[w].Busy? {
      a := Finish(w);
    } else if w :| 0 <= w < |s.workers| && s.workers[w].Blocked? {
      a := Deliver(w);
    } else if !s.jobsClosed {
      a := if s.given == s.jobs then CloseJobs else Give(0);
    } else if w :| 0 <= w < |s.workers| && s.workers[w].Idle? {
      a := Leave(w);
    } else if s.mergedCloses == 0 {
      a := CloseMerged;
    } else {
      a := ConsumerEof;
    }
  }

  // ---- whole runs ----

  ghost predicate IsRun(jobs: nat, workers: nat, states: seq<State>, actions: seq<Action>) {
    && |states| == |actions| + 1
    && states[0] == Init(jobs, workers)
    && forall k :: 0 <= k < |actions| ==>
         Enabled(states[k], actions[k]) && states[k + 1] == Apply(states[k], actions[k])
  }

  lemma {:induction false} RunInvariant(jobs: nat, workers: nat, states: seq<State>, actions: seq<Action>, k: nat)
    requires IsRun(jobs, workers, states, actions) && k < |states|
    ensures Inv(states[k]) && k <= Progress(states[k]) <= Bound(jobs, workers)
    ensures states[k].jobs == jobs && |states[k].workers| == workers
  {
    hide Inv, Progress, Enabled;
    if k == 0 {
      InitInv(jobs, workers);
    } else {
      RunInvariant(jobs, workers, states, actions, k - 1);
      StepKeepsInv(states[k - 1], actions[k - 1]);
      StepAdvances(states[k - 1], actions[k - 1]);
    }
    ProgressIsBounded(states[k]);
  }

  // Nobody sends on the merged channel once it is closed, and it is closed
  // only when no worker is left, once.
  lemma NeverSendsOnClosed(jobs: nat, workers: nat, states: seq<State>, actions: seq<Action>, k: nat, w: nat)
    requires IsRun(jobs, workers, states, actions) && k < |states|
    requires states[k].mergedCloses > 0
    ensures AllReturned(states[k]) && states[k].mergedCloses == 1
    ensures !Enabled(states[k], Finish(w)) && !Enabled(states[k], Deliver(w)) && !Enabled(states[k], Give(w))
  {
    hide Inv, Enabled, AllReturned;
    RunInvariant(jobs, workers, states, actions, k);
    ClosedMeansReturned(states[k], w);
  }

  lemma ClosedMeansReturned(s: State, w: nat)
    requires Inv(s) && s.mergedCloses > 0
    ensures AllReturned(s) && s.mergedCloses == 1
    ensures !Enabled(s, Finish(w)) && !Enabled(s, Deliver(w)) && !Enabled(s, Give(w))
  {
    hide Conserved;
  }

  // No interleaving goes on for ever, and one that cannot go on has everyone finished
  // and each job reported to the consumer exactly once - provided there is a
  // worker to do the jobs; with none, the consumer ends empty-handed and the
  // dispatcher waits for ever.
  lemma EveryRunDelivers(jobs: nat, workers: nat, states: seq<State>, actions: seq<Action>)
    requires IsRun(jobs, workers, states, actions)
    ensures |actions| <= Bound(jobs, workers)
    ensures var s := states[|actions|];
            (forall a :: !Enabled(s, a)) ==>
              if jobs == 0 || workers > 0
              then Finished(s) && EachOnce(Heard(s.lines), jobs) && |s.lines| == jobs && Signed(s)
              else s.consumerDone && s.lines == [] && !s.jobsClosed
  {
    RunInvariant(jobs, workers, states, actions, |actions|);
    var s := states[|actions|];
    Total(s);
    if exists a :: Enabled(s, a) {
      return;
    }
    if jobs == 0 || workers > 0 {
      if !Finished(s) {
        var a := CanMove(s);
      }
      EmptyHands(s.workers);
      FinalTally(s);
      JobsOnce(jobs);
    } else {
      assert !Enabled(s, CloseMerged) && !Enabled(s, ConsumerEof);
    }
  }

  lemma FinalTally(s: State)
    requires Inv(s) && Finished(s)
    ensures Heard(s.lines) == Jobs(s.jobs) && |s.lines| == s.jobs
  {
    Total(s);
    EmptyHands(s.workers);
    assert |Held(s.workers)| == 0;
    assert Heard(s.lines) + multiset{} == Heard(s.lines);
  }
}

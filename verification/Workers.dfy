// Pools of workers that take jobs from one channel and write results to
// another: what they hold, counted job by job.
module Workers {

  // A worker waits for a job, works on one, is suspended writing its result,
  // or has left its loop.
  datatype Worker = Idle | Busy(job: int) | Blocked(job: int) | Exited

  predicate HasJob(w: Worker) {
    w.Busy? || w.Blocked?
  }

  function JobOf(w: Worker): multiset<int> {
    if HasJob(w) then multiset{w.job} else multiset{}
  }

  // The jobs workers hold.
  function Held(ws: seq<Worker>): multiset<int> {
    if ws == [] then multiset{} else Held(ws[..|ws| - 1]) + JobOf(ws[|ws| - 1])
  }

  // Jobs 1 to n, once each.
  function Jobs(n: nat): multiset<int> {
    if n == 0 then multiset{} else Jobs(n - 1) + multiset{n}
  }

  // The same in order.
  function JobList(n: nat): seq<int> {
    if n == 0 then [] else JobList(n - 1) + [n]
  }

  function Score(w: Worker): nat {
    match w
    case Idle => 0
    case Busy(_) => 1
    case Blocked(_) => 2
    case Exited => 1
  }

  function Scores(ws: seq<Worker>): nat {
    if ws == [] then 0 else Scores(ws[..|ws| - 1]) + Score(ws[|ws| - 1])
  }

  lemma {:induction false} UpdateHeld(ws: seq<Worker>, i: nat, w: Worker)
    requires i < |ws|
    ensures Held(ws[i := w]) + JobOf(ws[i]) == Held(ws) + JobOf(w)
    decreases |ws|
  {
    hide JobOf;
    var k := |ws| - 1;
    if i < k {
      UpdateHeld(ws[..k], i, w);
      assert ws[i := w][..k] == ws[..k][i := w];
      assert ws[i := w][k] == ws[k];
      SwapAdd(Held(ws[..k][i := w]), JobOf(ws[i]), Held(ws[..k]), JobOf(w), JobOf(ws[k]));
    } else {
      assert ws[i := w][..k] == ws[..k];
      SwapLast(Held(ws[..k]), JobOf(ws[k]), JobOf(w));
    }
  }

  lemma SwapLast(a: multiset<int>, x: multiset<int>, y: multiset<int>)
    ensures (a + y) + x == (a + x) + y
  {}

  lemma SwapAdd(a: multiset<int>, x: multiset<int>, b: multiset<int>, y: multiset<int>, z: multiset<int>)
    requires a + x == b + y
    ensures (a + z) + x == (b + z) + y
  {
    assert (a + z) + x == (a + x) + z;
    assert (b + z) + y == (b + y) + z;
  }

  lemma {:induction false} UpdateScores(ws: seq<Worker>, i: nat, w: Worker)
    requires i < |ws|
    ensures Scores(ws[i := w]) + Score(ws[i]) == Scores(ws) + Score(w)
    decreases |ws|
  {
    var k := |ws| - 1;
    if i < k {
      UpdateScores(ws[..k], i, w);
      assert ws[i := w][..k] == ws[..k][i := w];
    } else {
      assert ws[i := w][..k] == ws[..k];
    }
  }

  lemma {:induction false} HeldSize(ws: seq<Worker>)
    ensures |Held(ws)| <= |ws|
    ensures Scores(ws) <= |Held(ws)| + |ws|
  {
    if ws != [] {
      HeldSize(ws[..|ws| - 1]);
    }
  }

  lemma {:induction false} EmptyHands(ws: seq<Worker>)
    ensures |Held(ws)| == 0 <==> forall i :: 0 <= i < |ws| ==> !HasJob(ws[i])
  {
    if ws != [] {
      var init := ws[..|ws| - 1];
      EmptyHands(init);
      assert ws == init + [ws[|ws| - 1]];
    }
  }

  lemma {:induction false} FullHands(ws: seq<Worker>)
    ensures |Held(ws)| == |ws| <==> forall i :: 0 <= i < |ws| ==> HasJob(ws[i])
  {
    if ws != [] {
      var init := ws[..|ws| - 1];
      FullHands(init);
      HeldSize(init);
      assert ws == init + [ws[|ws| - 1]];
    }
  }

  lemma {:induction false} NobodyHolds(n: nat)
    ensures Held(seq(n, _ => Idle)) == multiset{} && Scores(seq(n, _ => Idle)) == 0
  {
    if n > 0 {
      NobodyHolds(n - 1);
      assert seq(n, _ => Idle)[..n - 1] == seq(n - 1, _ => Idle);
    }
  }

  lemma {:induction false} JobsSize(n: nat)
    ensures |Jobs(n)| == n
  {
    if n > 0 {
      JobsSize(n - 1);
    }
  }

  // Each of the jobs 1 to n once, and nothing else.
  ghost predicate EachOnce(jobs: multiset<int>, n: nat) {
    forall j :: jobs[j] == if 1 <= j <= n then 1 else 0
  }

  lemma {:induction false} JobsOnce(n: nat)
    ensures EachOnce(Jobs(n), n)
  {
    if n > 0 {
      JobsOnce(n - 1);
    }
  }

  lemma PlusNothing(a: multiset<int>, b: multiset<int>)
    requires a + multiset{} == b
    ensures a == b
  {
    assert a + multiset{} == a;
  }

  lemma Cancel(a: multiset<int>, b: multiset<int>, j: multiset<int>)
    requires a + j == b + j
    ensures a == b
  {
    assert a == (a + j) - j;
    assert b == (b + j) - j;
  }

  lemma TakesJob(ws: seq<Worker>, i: nat, job: int)
    requires i < |ws| && ws[i].Idle?
    ensures Held(ws[i := Busy(job)]) == Held(ws) + multiset{job}
  {
    UpdateHeld(ws, i, Busy(job));
    PlusNothing(Held(ws[i := Busy(job)]), Held(ws) + multiset{job});
  }

  lemma LosesJob(ws: seq<Worker>, i: nat)
    requires i < |ws| && HasJob(ws[i])
    ensures Held(ws) == Held(ws[i := Idle]) + multiset{ws[i].job}
  {
    UpdateHeld(ws, i, Idle);
    PlusNothing(Held(ws), Held(ws[i := Idle]) + multiset{ws[i].job});
  }
}

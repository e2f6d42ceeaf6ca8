// Trees of tasks whose coroutines also wait for the scheduler: started one
// after the other, then resumed by the event loop until nobody waits.
module EventLoop {
  import opened Clocks
  import opened Options
  import opened Tasks = Task
  import S = Scheduler

  // How far a task has come: done, or waiting at the end of its chain of
  // awaits, to be started or for the scheduler.
  ghost predicate InProgress(root: Frame, c: seq<Frame>, expected: Outcome, begun: bool)
    reads root, c
  {
    if c == [] then Completed(root, expected)
    else
      && c[0] == root && Chain(c) && Promises(c, expected)
      && Idle(c[|c| - 1]) && (begun <==> c[|c| - 1].point == AtPause)
  }

  lemma CanResume(root: Frame, c: seq<Frame>, expected: Outcome, begun: bool)
    requires c != [] && InProgress(root, c, expected, begun)
    ensures c[0] == root && Valid(c, expected) && Idle(c[|c| - 1]) && (begun <==> c[|c| - 1].point == AtPause)
  {}

  lemma HasStopped(root: Frame, c: seq<Frame>, expected: Outcome)
    requires c == [] ==> Completed(root, expected)
    requires c != [] ==> c[0] == root && Valid(c, expected) && Idle(c[|c| - 1]) && c[|c| - 1].point == AtPause
    ensures InProgress(root, c, expected, true)
  {}

  // No frame belongs to two tasks.
  ghost predicate Apart(roots: seq<Frame>, chains: seq<seq<Frame>>) {
    && |roots| == |chains|
    && (forall i, j :: 0 <= i < j < |roots| ==> roots[i] != roots[j])
    && (forall i, j, g :: 0 <= i < |roots| && 0 <= j < |roots| && i != j && g in chains[i] ==>
          g != roots[j] && g !in chains[j])
  }

  function Members(chains: seq<seq<Frame>>): set<Frame> {
    set i, k | 0 <= i < |chains| && 0 <= k < |chains[i]| :: chains[i][k]
  }

  ghost predicate AllInProgress(
    roots: seq<Frame>, chains: seq<seq<Frame>>, expected: seq<Outcome>, begun: seq<bool>)
    reads roots, Members(chains)
  {
    && |roots| == |chains| == |expected| == |begun|
    && forall i :: 0 <= i < |roots| ==> InProgress(roots[i], chains[i], expected[i], begun[i])
  }

  lemma OnlyOne(roots: seq<Frame>, chains: seq<seq<Frame>>, i: nat)
    requires Apart(roots, chains) && i < |roots|
    ensures forall j :: 0 <= j < |roots| && j != i ==> roots[j] !in chains[i]
    ensures forall j, k :: 0 <= j < |roots| && j != i && 0 <= k < |chains[j]| ==> chains[j][k] !in chains[i]
  {}

  // Replacing one task's chain by one of its own and unknown frames keeps tasks apart.
  lemma StillApart(roots: seq<Frame>, chains: seq<seq<Frame>>, i: nat, after: seq<Frame>)
    requires Apart(roots, chains) && i < |roots|
    requires forall g :: g in after ==>
               g in chains[i] || (g !in roots && forall j :: 0 <= j < |roots| ==> g !in chains[j])
    ensures Apart(roots, chains[i := after])
  {}

  // When a task's waiting coroutine may go on, if it sleeps, and how long the
  // task has to sleep after that.
  datatype Nap = Nap(due: Option<int>, after: int)

  const AWAKE := Nap(None, 0)

  ghost function NapOf(c: seq<Frame>): Nap
    reads c
  {
    if c != [] && Asleep(c[|c| - 1]) then
      Nap(Some(c[|c| - 1].due), Left(c).asleep - c[|c| - 1].code.wait.duration)
    else Nap(None, Left(c).asleep)
  }

  // The earliest time at which the task can be done.
  function ReachAt(nap: Nap, now: int): int {
    (if nap.due.Some? then nap.due.value else now) + nap.after
  }

  lemma ReachByNap(c: seq<Frame>, now: int)
    ensures ReachAt(NapOf(c), now) == Reach(c, now)
    ensures c != [] && (NapOf(c).due.Some? ==> NapOf(c).due.value <= now) ==> Rested(c[|c| - 1], now)
  {
    hide Left;
  }

  lemma NapWhenStopped(c: seq<Frame>, paused: Frame?)
    requires c == [] ==> paused == null
    requires c != [] ==> paused == c[|c| - 1] && paused.point == AtPause && paused.code.Pause?
    ensures NapOf(c).due == if paused != null && paused.code.wait.Sleep? then Some(paused.due) else None
  {
    hide Left;
  }

  // What a task still needs, how long its chain is and how many frames it holds.
  datatype Account = Account(spawns: nat, pauses: nat, yieldings: nat, length: nat, held: nat, nap: Nap)

  ghost function AccountOf(c: seq<Frame>): Account
    reads c
  {
    Account(Left(c).spawns, Left(c).pauses, Left(c).yieldings, |c|, Held(c), NapOf(c))
  }

  ghost predicate Accounted(chains: seq<seq<Frame>>, accounts: seq<Account>)
    reads Members(chains)
  {
    && |accounts| == |chains|
    && forall i :: 0 <= i < |chains| ==> accounts[i] == AccountOf(chains[i])
  }

  // All tasks' accounts together.
  function Total(accounts: seq<Account>): Account {
    if accounts == [] then Account(0, 0, 0, 0, 0, AWAKE)
    else
      var rest, last := Total(accounts[..|accounts| - 1]), accounts[|accounts| - 1];
      Account(rest.spawns + last.spawns, rest.pauses + last.pauses, rest.yieldings + last.yieldings,
              rest.length + last.length, rest.held + last.held, AWAKE)
  }

  // `now` in place of `was` makes the same difference to the totals.
  predicate Shifted(before: Account, after: Account, was: Account, now: Account) {
    && after.spawns - before.spawns == now.spawns - was.spawns
    && after.pauses - before.pauses == now.pauses - was.pauses
    && after.yieldings - before.yieldings == now.yieldings - was.yieldings
    && after.length - before.length == now.length - was.length
    && after.held - before.held == now.held - was.held
  }

  lemma {:induction false} TotalUpdate(accounts: seq<Account>, i: nat, a: Account)
    requires i < |accounts|
    ensures Shifted(Total(accounts), Total(accounts[i := a]), accounts[i], a)
    decreases |accounts|
  {
    var k := |accounts| - 1;
    if i < k {
      TotalUpdate(accounts[..k], i, a);
      assert accounts[i := a][..k] == accounts[..k][i := a];
    } else {
      assert accounts[i := a][..k] == accounts[..k];
    }
  }

  lemma {:induction false} TotalOfDone(accounts: seq<Account>)
    requires forall i :: 0 <= i < |accounts| ==> accounts[i] == Account(0, 0, 0, 0, 1, AWAKE)
    ensures Total(accounts) == Account(0, 0, 0, 0, |accounts|, AWAKE)
  {
    if accounts != [] {
      TotalOfDone(accounts[..|accounts| - 1]);
    }
  }

  // Exactly the tasks that have begun and are not done wait in the scheduler's
  // queues, once each; leaves[i] is the coroutine that task i's handle resumes.
  ghost predicate Queued(
    handles: multiset<nat>, leaves: seq<Frame>, chains: seq<seq<Frame>>, begun: seq<bool>)
  {
    && |leaves| == |chains| == |begun|
    && (forall i: nat :: handles[i] == if i < |chains| && begun[i] && chains[i] != [] then 1 else 0)
    && (forall i: nat :: i < |chains| && begun[i] && chains[i] != [] ==> leaves[i] == chains[i][|chains[i]| - 1])
  }

  // A handle leaves the queues: for the moment its task counts as not begun.
  lemma TakenOut(handles: multiset<nat>, leaves: seq<Frame>, chains: seq<seq<Frame>>, begun: seq<bool>, i: nat)
    requires Queued(handles + multiset{i}, leaves, chains, begun)
    ensures i < |chains| == |begun| == |leaves| && begun[i] && chains[i] != []
    ensures leaves[i] == chains[i][|chains[i]| - 1]
    ensures Queued(handles, leaves, chains, begun[i := false])
  {
    assert (handles + multiset{i})[i] > 0;
    var fewer := begun[i := false];
    forall j: nat
      ensures handles[j] == if j < |chains| && fewer[j] && chains[j] != [] then 1 else 0
    {
      assert (handles + multiset{i})[j] == handles[j] + if j == i then 1 else 0;
    }
  }

  lemma NobodyIs(q: S.Queues, leaves: seq<Frame>, chains: seq<seq<Frame>>, begun: seq<bool>, i: nat)
    requires Queued(S.Handles(q), leaves, chains, begun) && i < |begun| && !begun[i]
    ensures S.Handles(q)[i] == 0
  {}

  // Task i has run: it waits again, or is done.
  lemma PutBack(
    handles: multiset<nat>, leaves: seq<Frame>, before: seq<seq<Frame>>, begun: seq<bool>,
    chains: seq<seq<Frame>>, i: nat, paused: Frame?)
    requires Queued(handles, leaves, before, begun) && i < |before| && !begun[i]
    requires |chains| == |before| && chains == before[i := chains[i]]
    requires if paused == null then chains[i] == [] else chains[i] != [] && paused == chains[i][|chains[i]| - 1]
    ensures if paused == null then Queued(handles, leaves, chains, begun[i := true])
            else Queued(handles + multiset{i}, leaves[i := paused], chains, begun[i := true])
  {
    var more := begun[i := true];
    if paused != null {
      forall j: nat
        ensures (handles + multiset{i})[j] == if j < |chains| && more[j] && chains[j] != [] then 1 else 0
      {
        assert (handles + multiset{i})[j] == handles[j] + if j == i then 1 else 0;
      }
    }
  }

  // What one resumption makes of a task's account.
  predicate Progressed(was: Account, now: Account, before: int, time: int, paused: bool, begun: bool, transfers: nat) {
    && now.pauses + (if begun then 1 else 0) <= was.pauses
    && now.yieldings + (if begun then 1 else 0) >= was.yieldings
    && transfers + 2 * now.spawns + now.length == 2 * was.spawns + was.length + (if paused then 1 else 0)
    && ((was.nap.due.Some? ==> was.nap.due.value <= before) ==> ReachAt(now.nap, time) >= ReachAt(was.nap, before))
  }

  // No task is ahead of its time.
  ghost predicate NobodyEarly(accounts: seq<Account>, targets: seq<int>, now: int) {
    && |targets| == |accounts|
    && forall i :: 0 <= i < |targets| ==> ReachAt(accounts[i].nap, now) >= targets[i]
  }

  lemma StillNobodyEarly(
    accounts: seq<Account>, targets: seq<int>, before: int, now: int, i: nat, a: Account)
    requires NobodyEarly(accounts, targets, before) && before <= now && i < |accounts|
    requires ReachAt(a.nap, now) >= ReachAt(accounts[i].nap, before)
    ensures NobodyEarly(accounts[i := a], targets, now)
  {}

  lemma LaterNobodyEarly(accounts: seq<Account>, targets: seq<int>, before: int, now: int)
    requires NobodyEarly(accounts, targets, before) && before <= now
    ensures NobodyEarly(accounts, targets, now)
  {}

  // ---- why each handle waits ----

  ghost predicate DueIs(accounts: seq<Account>, h: nat, due: Option<int>) {
    h < |accounts| && accounts[h].nap.due == due
  }

  // A handle in the timer queue stands for a coroutine asleep until the
  // timer's due time, and so does one in the ready queue that a timer put there.
  ghost predicate Linked(q: S.Queues, accounts: seq<Account>) {
    && |q.tags| == |q.ready|
    && (forall k :: 0 <= k < |q.timers| ==> DueIs(accounts, q.timers[k].handle, Some(q.timers[k].due)))
    && (forall k :: 0 <= k < |q.ready| ==>
          DueIs(accounts, q.ready[k], if q.tags[k].FromTimer? then Some(q.tags[k].timer.due) else None))
  }

  lemma LinkedWithout(q: S.Queues, accounts: seq<Account>, i: nat, a: Account)
    requires Linked(q, accounts) && i < |accounts| && S.Handles(q)[i] == 0
    ensures Linked(q, accounts[i := a])
  {
    forall k | 0 <= k < |q.timers| ensures q.timers[k].handle != i {
      S.TimerHandlesAt(q.timers, k);
    }
    forall k | 0 <= k < |q.ready| ensures q.ready[k] != i {
      assert q.ready[k] in multiset(q.ready);
    }
  }

  lemma LinkedAt(q: S.Queues, r: S.Queues, accounts: seq<Account>)
    requires Linked(q, accounts) && r.tags == q.tags && r.ready == q.ready && r.timers == q.timers
    ensures Linked(r, accounts)
  {}

  lemma LinkedMore(q: S.Queues, e: S.Event, accounts: seq<Account>)
    requires Linked(q, accounts) && S.Enabled(q, e) && (e.Register? || e.YieldBack?)
    requires DueIs(accounts, e.handle, if e.Register? then Some(e.due) else None)
    ensures Linked(S.Apply(q, e), accounts)
  {
    if e.Register? {
      var t := S.Timer(e.due, q.nextSeq, e.handle);
      S.InsertMembers(q.timers, t);
      var out := S.Insert(q.timers, t);
      forall k | 0 <= k < |out| ensures DueIs(accounts, out[k].handle, Some(out[k].due)) {
        assert out[k] in out;
      }
    }
  }

  lemma LinkedLess(q: S.Queues, accounts: seq<Account>)
    requires Linked(q, accounts) && S.Enabled(q, S.Wake)
    ensures Linked(S.Apply(q, S.Wake), accounts)
  {}

  lemma LinkedOver(q: S.Queues, r: S.Queues, accounts: seq<Account>)
    requires Linked(q, accounts) && S.MovedOver(q, r)
    ensures Linked(r, accounts)
  {
    var more := r.fired[|q.fired|..];
    forall k | 0 <= k < |r.ready|
      ensures DueIs(accounts, r.ready[k], if r.tags[k].FromTimer? then Some(r.tags[k].timer.due) else None)
    {
      if k >= |q.ready| {
        assert q.timers[k - |q.ready|] == more[k - |q.ready|];
      }
    }
    forall k | 0 <= k < |r.timers| ensures DueIs(accounts, r.timers[k].handle, Some(r.timers[k].due)) {
      assert q.timers[|more| + k] == r.timers[k];
    }
  }

  // Whoever is first in the ready queue has slept enough.
  lemma FirstHasRested(q: S.Queues, accounts: seq<Account>)
    requires Linked(q, accounts) && S.Consistent(q) && q.ready != []
    ensures q.ready[0] < |accounts|
    ensures var due := accounts[q.ready[0]].nap.due; due.Some? ==> due.value <= q.now
  {
    assert DueIs(accounts, q.ready[0], if q.tags[0].FromTimer? then Some(q.tags[0].timer.due) else None);
  }

  ghost function Unspent(needs: Cost): Account {
    Account(needs.spawns, needs.pauses, needs.yieldings, 1, 1, Nap(None, needs.asleep))
  }

  lemma NotBegun(root: Frame)
    requires Unstarted(root)
    ensures InProgress(root, [root], Eval(root.code, root.env), false)
    ensures AccountOf([root]) == Unspent(Needs(root.code, root.env))
  {
    hide Valid, Left, Eval, Needs, NeedsAfter;
    StartChain(root);
    assert Idle(root);
  }

  // What the tasks need, before any of them has started.
  ghost function Budget(roots: seq<Frame>): seq<Account>
    reads roots
  {
    seq(|roots|, i requires 0 <= i < |roots| reads roots => Unspent(Needs(roots[i].code, roots[i].env)))
  }

  class Loop {
    const roots: seq<Frame>
    const stats: FrameStats
    const clock: Clock
    const sched: S.Scheduler              // its handles are positions in roots
    var leaves: seq<Frame>
    ghost var chains: seq<seq<Frame>>     // each task's chain of awaits, empty when it is done
    ghost var begun: seq<bool>
    ghost var accounts: seq<Account>
    ghost const expected: seq<Outcome>
    ghost const targets: seq<int>         // before when no task can be done

    ghost predicate Sound()
      reads `chains, `begun, `accounts, roots, Members(chains)
    {
      Apart(roots, chains) && AllInProgress(roots, chains, expected, begun) && Accounted(chains, accounts)
    }

    ghost predicate Scheduling()
      reads sched, sched.clock
    {
      sched.Valid() && sched.clock == clock && |sched.todo| == |roots|
    }

    ghost predicate OnTime()
      reads `accounts, clock
    {
      NobodyEarly(accounts, targets, clock.now)
    }

    ghost predicate Valid()
      reads this, roots, Members(chains), sched, sched.clock, clock
    {
      && Sound() && Scheduling() && OnTime()
      && Queued(S.Handles(sched.Q()), leaves, chains, begun) && Linked(sched.Q(), accounts)
    }

    constructor (roots: seq<Frame>, stats: FrameStats, clock: Clock)
      requires forall i :: 0 <= i < |roots| ==> Unstarted(roots[i])
      requires forall i, j :: 0 <= i < j < |roots| ==> roots[i] != roots[j]
      ensures Valid() && this.roots == roots && this.stats == stats && this.clock == clock && leaves == roots
      ensures fresh(sched) && S.Waiting(sched.Q()) == 0 && sched.resumed == []
      ensures |begun| == |roots| == |chains| && forall i :: 0 <= i < |roots| ==> !begun[i] && chains[i] == [roots[i]]
      ensures |accounts| == |expected| == |targets| == |roots|
      ensures forall i :: 0 <= i < |roots| ==>
                && expected[i] == Eval(roots[i].code, roots[i].env)
                && accounts[i] == Unspent(Needs(roots[i].code, roots[i].env))
                && targets[i] == clock.now + Needs(roots[i].code, roots[i].env).asleep
    {
      hide Eval, Needs, InProgress, AccountOf, Unstarted;
      this.roots, this.stats, this.clock, leaves := roots, stats, clock, roots;
      sched := new S.Scheduler(seq(|roots|, _ => []), clock);
      chains := seq(|roots|, i requires 0 <= i < |roots| => [roots[i]]);
      begun := seq(|roots|, _ => false);
      expected := seq(|roots|, i requires 0 <= i < |roots| reads roots => Eval(roots[i].code, roots[i].env));
      accounts := seq(|roots|, i requires 0 <= i < |roots| reads roots => Unspent(Needs(roots[i].code, roots[i].env)));
      targets := seq(|roots|, i requires 0 <= i < |roots| reads roots, clock =>
        clock.now + Needs(roots[i].code, roots[i].env).asleep);
      new;
      forall i | 0 <= i < |roots|
        ensures InProgress(roots[i], chains[i], expected[i], begun[i]) && accounts[i] == AccountOf(chains[i])
      {
        NotBegun(roots[i]);
      }
    }

    // One task runs until it waits again or is done; the others are not touched ...
    method Advance(f: Frame, ghost i: nat, ghost c: seq<Frame>)
      returns (transfers: nat, paused: Frame?, ghost after: seq<Frame>)
      requires Sound() && i < |roots| && c == chains[i] && c != [] && f == c[|c| - 1]
      modifies c, stats, clock
      ensures old(clock.now) <= clock.now
      ensures |chains| == |accounts| == |roots| == |expected| == |begun|
      ensures Apart(roots, chains[i := after]) && InProgress(roots[i], after, expected[i], true)
      ensures forall j :: 0 <= j < |roots| && j != i ==>
                InProgress(roots[j], chains[j], expected[j], begun[j]) && accounts[j] == AccountOf(chains[j])
      ensures forall g :: g in after ==> g in c || fresh(g)
      ensures Progressed(accounts[i], AccountOf(after), old(clock.now), clock.now, paused != null, begun[i], transfers)
      ensures stats.totalAllocations + AccountOf(after).spawns == old(stats.totalAllocations + accounts[i].spawns)
      ensures stats.liveFrames - AccountOf(after).held == old(stats.liveFrames - accounts[i].held)
      ensures paused == null <==> after == []
      ensures paused != null ==> paused == after[|after| - 1] && paused.code.Pause?
                                 && AsleepSince(paused, old(clock.now), clock.now)
      ensures NapOf(after).due == if paused != null && paused.code.wait.Sleep? then Some(paused.due) else None
    {
      hide Chain, Promises, Left, Held, Apart, Completed, InProgress, Tasks.Valid, AsleepSince, Reach, NapOf, Rested;
      CanResume(roots[i], c, expected[i], begun[i]);
      ReachByNap(c, clock.now);
      OnlyOne(roots, chains, i);
      transfers, paused, after := Resume(f, stats, clock, c, expected[i]);
      HasStopped(roots[i], after, expected[i]);
      ReachByNap(after, clock.now);
      NapWhenStopped(after, paused);
      StillApart(roots, chains, i, after);
      forall j | 0 <= j < |roots| && j != i
        ensures InProgress(roots[j], chains[j], expected[j], begun[j]) && accounts[j] == AccountOf(chains[j])
      {
        assert old(InProgress(roots[j], chains[j], expected[j], begun[j]) && accounts[j] == AccountOf(chains[j]));
      }
    }

    // ... and is recorded.
    method Turn(f: Frame, ghost i: nat, ghost c: seq<Frame>) returns (transfers: nat, paused: Frame?)
      requires Sound() && i < |roots| && c == chains[i] && c != [] && f == c[|c| - 1]
      modifies c, stats, clock, `chains, `begun, `accounts
      ensures old(clock.now) <= clock.now
      ensures Sound() && begun == old(begun)[i := true]
      ensures chains == old(chains)[i := chains[i]] && accounts == old(accounts)[i := accounts[i]]
      ensures forall g :: g in chains[i] ==> g in c || fresh(g)
      ensures paused == null <==> chains[i] == []
      ensures paused != null ==> chains[i] != [] && paused == chains[i][|chains[i]| - 1] && paused.code.Pause?
                                 && AsleepSince(paused, old(clock.now), clock.now)
      ensures accounts[i].nap.due == if paused != null && paused.code.wait.Sleep? then Some(paused.due) else None
      ensures Progressed(old(accounts[i]), accounts[i], old(clock.now), clock.now,
                         paused != null, old(begun[i]), transfers)
      ensures stats.totalAllocations + accounts[i].spawns == old(stats.totalAllocations + accounts[i].spawns)
      ensures stats.liveFrames - accounts[i].held == old(stats.liveFrames - accounts[i].held)
    {
      hide InProgress, Apart, Progressed, AsleepSince, Left, Held, NapOf;
      ghost var after;
      transfers, paused, after := Advance(f, i, c);
      chains, begun := chains[i := after], begun[i := true];
      accounts := accounts[i := AccountOf(after)];
    }

    // What the books say after a turn, against the totals before it.
    ghost predicate Settled(before: Account, made: int, live: int, transfers: nat, paused: int, resumed: nat)
      reads `accounts, stats
    {
      var now := Total(accounts);
      && stats.totalAllocations + now.spawns == made + before.spawns
      && stats.liveFrames - now.held == live - before.held
      && now.pauses + resumed <= before.pauses && now.yieldings + resumed >= before.yieldings
      && transfers + 2 * now.spawns + now.length == 2 * before.spawns + before.length + paused
    }

    // ... and what that adds to the totals.
    method CountedTurn(f: Frame, ghost i: nat, ghost c: seq<Frame>) returns (transfers: nat, paused: Frame?)
      requires Sound() && i < |roots| == |chains| == |begun| && c == chains[i] && c != [] && f == c[|c| - 1]
      modifies c, stats, clock, `chains, `begun, `accounts
      ensures old(clock.now) <= clock.now
      ensures Sound() && begun == old(begun)[i := true]
      ensures chains == old(chains)[i := chains[i]] && |accounts| == |roots| == |old(accounts)|
      ensures accounts == old(accounts)[i := accounts[i]]
      ensures forall g :: g in chains[i] ==> g in c || fresh(g)
      ensures paused == null <==> chains[i] == []
      ensures paused != null ==> chains[i] != [] && paused == chains[i][|chains[i]| - 1] && paused.code.Pause?
                                 && AsleepSince(paused, old(clock.now), clock.now)
      ensures accounts[i].nap.due == if paused != null && paused.code.wait.Sleep? then Some(paused.due) else None
      ensures (old(accounts[i].nap.due).Some? ==> old(accounts[i].nap.due).value <= old(clock.now)) ==>
                ReachAt(accounts[i].nap, clock.now) >= old(ReachAt(accounts[i].nap, clock.now))
      ensures Settled(Total(old(accounts)), old(stats.totalAllocations), old(stats.liveFrames),
                      transfers, if paused == null then 0 else 1, if old(begun[i]) then 1 else 0)
    {
      hide InProgress, Apart, AccountOf, AsleepSince, Total;
      transfers, paused := Turn(f, i, c);
      TotalUpdate(old(accounts), i, accounts[i]);
    }

    // A coroutine that paused hands its handle to the scheduler: into the timer
    // queue for the due time it computed, or to the back of the ready queue.
    method Park(f: Frame, i: nat, ghost before: int)
      requires Scheduling() && i < |roots| && f.code.Pause? && AsleepSince(f, before, clock.now)
      requires Linked(sched.Q(), accounts)
      requires DueIs(accounts, i, if f.code.wait.Sleep? then Some(f.due) else None)
      modifies sched
      ensures Linked(sched.Q(), accounts)
      ensures Scheduling() && sched.resumed == old(sched.resumed)
      ensures S.Handles(sched.Q()) == old(S.Handles(sched.Q())) + multiset{i}
      ensures S.Waiting(sched.Q()) == old(S.Waiting(sched.Q())) + 1
      ensures sched.Q() == S.Apply(old(sched.Q()), if f.code.wait.Sleep? then S.Register(f.due, i) else S.YieldBack(i))
    {
      hide S.Consistent, S.HandlesBelow, S.InQueues, S.Handles, S.Waiting, Linked, DueIs;
      ghost var q := sched.Q();
      ghost var e := if f.code.wait.Sleep? then S.Register(f.due, i) else S.YieldBack(i);
      S.StepCountsHandles(q, e);
      S.StepMovesHandles(q, e, |roots|);
      LinkedMore(q, e, accounts);
      if f.code.wait.Sleep? {
        sched.AddTimer(f.due, i);
      } else {
        sched.YieldAwait(i);
      }
    }
    ghost function Waiting(): nat
      reads sched, sched.clock
    {
      S.Waiting(sched.Q())
    }

    // Task i, for the moment in no queue, runs on from its last coroutine ...
    method RunOn(i: nat, ghost c: seq<Frame>) returns (transfers: nat, paused: Frame?)
      requires Sound() && Scheduling() && OnTime()
      requires i < |roots| == |begun| == |chains| == |accounts| == |leaves|
      requires c == chains[i] && c != [] && leaves[i] == c[|c| - 1]
      requires S.Handles(sched.Q())[i] == 0 && Linked(sched.Q(), accounts)
      requires accounts[i].nap.due.Some? ==> accounts[i].nap.due.value <= clock.now
      modifies c, stats, clock, `chains, `begun, `accounts
      ensures Sound() && Scheduling() && OnTime() && Linked(sched.Q(), accounts)
      ensures sched.Q() == old(sched.Q()).(now := clock.now) && Waiting() == old(Waiting())
      ensures S.Handles(sched.Q()) == old(S.Handles(sched.Q()))
      ensures old(clock.now) <= clock.now
      ensures begun == old(begun)[i := true] && chains == old(chains)[i := chains[i]]
      ensures accounts == old(accounts)[i := accounts[i]]
      ensures forall g :: g in chains[i] ==> g in c || fresh(g)
      ensures paused == null <==> chains[i] == []
      ensures paused != null ==>
                && chains[i] != [] && paused == chains[i][|chains[i]| - 1] && paused.code.Pause?
                && AsleepSince(paused, old(clock.now), clock.now)
                && DueIs(accounts, i, if paused.code.wait.Sleep? then Some(paused.due) else None)
      ensures Settled(Total(old(accounts)), old(stats.totalAllocations), old(stats.liveFrames),
                      transfers, if paused == null then 0 else 1, if old(begun[i]) then 1 else 0)
    {
      hide InProgress, Apart, AccountOf, Linked, NobodyEarly, S.Handles, S.Waiting, AsleepSince, Total;
      ghost var q, since, books := sched.Q(), clock.now, accounts;
      transfers, paused := CountedTurn(leaves[i], i, c);
      S.TickKeeps(q, clock.now);
      StillNobodyEarly(books, targets, since, clock.now, i, accounts[i]);
      LinkedWithout(q, books, i, accounts[i]);
      LinkedAt(q, sched.Q(), accounts);
    }

    // ... until it is done or back in the queues.
    method Proceed(i: nat, ghost c: seq<Frame>) returns (transfers: nat)
      requires Sound() && Scheduling() && i < |roots| == |begun| == |chains| && c == chains[i] && c != []
      requires |leaves| == |roots| && leaves[i] == c[|c| - 1]
      requires Queued(S.Handles(sched.Q()), leaves, chains, begun[i := false])
      requires OnTime() && |accounts| == |roots| && Linked(sched.Q(), accounts)
      requires accounts[i].nap.due.Some? ==> accounts[i].nap.due.value <= clock.now
      modifies c, stats, clock, sched, `chains, `begun, `accounts, `leaves
      ensures Valid() && begun == old(begun)[i := true] && chains == old(chains)[i := chains[i]]
      ensures forall g :: g in chains[i] ==> g in c || fresh(g)
      ensures |leaves| == |roots| && forall j :: 0 <= j < |roots| && j != i ==> leaves[j] == old(leaves)[j]
      ensures sched.resumed == old(sched.resumed) && |accounts| == |roots|
      ensures accounts == old(accounts)[i := accounts[i]]
      ensures Settled(Total(old(accounts)), old(stats.totalAllocations), old(stats.liveFrames),
                      transfers, Waiting() - old(Waiting()), if old(begun[i]) then 1 else 0)
    {
      hide InProgress, Apart, AccountOf, Queued, Linked, NobodyEarly, DueIs;
      hide S.Handles, S.Waiting, AsleepSince, Total, Settled;
      ghost var q, were, idle, since := sched.Q(), chains, begun[i := false], clock.now;
      NobodyIs(q, leaves, were, idle, i);
      var paused;
      transfers, paused := RunOn(i, c);
      assert begun == idle[i := true];
      PutBack(S.Handles(q), leaves, were, idle, chains, i, paused);
      if paused != null {
        Park(paused, i, since);
        leaves := leaves[i := paused];
      }
    }

    ghost predicate AllBegun()
      reads this
    {
      forall j :: 0 <= j < |begun| ==> begun[j]
    }

    // The program starts its tasks one after the other.
    method StartAll() returns (transfers: nat)
      requires Valid() && Waiting() == 0 && |begun| == |roots| == |chains| == |leaves| && |accounts| == |roots|
      requires forall j :: 0 <= j < |roots| ==> accounts[j].nap.due == None
      requires forall j :: 0 <= j < |roots| ==> !begun[j] && chains[j] == [roots[j]] && leaves[j] == roots[j]
      modifies roots, stats, clock, sched, `chains, `begun, `accounts, `leaves
      ensures Valid() && AllBegun() && sched.resumed == old(sched.resumed)
      ensures forall g :: g in Members(chains) ==> g in roots || fresh(g)
      ensures Settled(Total(old(accounts)), old(stats.totalAllocations), old(stats.liveFrames), transfers, Waiting(), 0)
    {
      hide Sound, Queued, Linked, NobodyEarly, S.Handles, S.Waiting, Total;
      transfers := 0;
      var i := 0;
      while i < |roots|
        invariant i <= |roots| && Valid() && |begun| == |chains| == |roots| == |leaves| && |accounts| == |roots|
        invariant forall j :: i <= j < |roots| ==> accounts[j].nap.due == None
        invariant sched.resumed == old(sched.resumed)
        invariant forall j :: 0 <= j < |roots| ==> begun[j] == (j < i)
        invariant forall j :: i <= j < |roots| ==> chains[j] == [roots[j]] && leaves[j] == roots[j]
        invariant forall j, g :: 0 <= j < |roots| && g in chains[j] ==> g in roots || fresh(g)
        invariant Settled(Total(old(accounts)), old(stats.totalAllocations), old(stats.liveFrames),
                          transfers, Waiting(), 0)
      {
        assert begun == begun[i := false];
        var t := Proceed(i, [roots[i]]);
        transfers := transfers + t;
        i := i + 1;
      }
    }

    // The first ready handle leaves the queue and its coroutine runs on.
    method ResumeFirst() returns (transfers: nat)
      requires Valid() && AllBegun() && sched.ready != []
      modifies Members(chains), stats, clock, sched, `chains, `begun, `accounts, `leaves
      ensures Valid() && AllBegun()
      ensures forall g :: g in Members(chains) ==> g in old(Members(chains)) || fresh(g)
      ensures |sched.resumed| == |old(sched.resumed)| + 1 && old(sched.resumed) <= sched.resumed
      ensures Settled(Total(old(accounts)), old(stats.totalAllocations), old(stats.liveFrames),
                      transfers, Waiting() + 1 - old(Waiting()), 1)
    {
      hide InProgress, Apart, AccountOf, Queued, Linked, NobodyEarly, S.Handles, S.Waiting, Total;
      ghost var q := sched.Q();
      S.StepCountsHandles(q, S.Wake);
      S.StepMovesHandles(q, S.Wake, |roots|);
      FirstHasRested(q, accounts);
      LinkedLess(q, accounts);
      var h := sched.PopFirst();
      TakenOut(S.Handles(sched.Q()), leaves, chains, begun, h);
      InMembers(chains, h);
      transfers := Proceed(h, chains[h]);
    }

    // With nobody ready, sleep until the earliest timer; then move the due ones over.
    method AwaitReady()
      requires Valid() && (sched.ready != [] || sched.timers != [])
      modifies clock, sched
      ensures Valid() && sched.ready != [] && Waiting() == old(Waiting()) && sched.resumed == old(sched.resumed)
    {
      hide InProgress, Apart, AccountOf, Queued, S.Handles, S.Consistent, S.HandlesBelow, S.InQueues;
      hide Linked, NobodyEarly, S.MovedOver;
      ghost var q := sched.Q();
      if sched.ready == [] {
        sched.SleepUntil(sched.timers[0].due);
      }
      S.SameHandles(q, sched.Q());
      LinkedAt(q, sched.Q(), accounts);
      ghost var p := sched.Q();
      sched.Drain();
      LaterNobodyEarly(accounts, targets, q.now, clock.now);
      LinkedOver(p, sched.Q(), accounts);
    }

    // run()
    method Run() returns (iterations: nat, transfers: nat)
      requires Valid() && AllBegun()
      modifies roots, Members(chains), stats, clock, sched, `chains, `begun, `accounts, `leaves
      ensures Valid() && AllBegun() && Waiting() == 0
      ensures old(sched.resumed) <= sched.resumed && iterations == |sched.resumed| - |old(sched.resumed)|
      ensures Settled(Total(old(accounts)), old(stats.totalAllocations), old(stats.liveFrames),
                      transfers, iterations - old(Waiting()), iterations)
    {
      hide InProgress, Apart, AccountOf, Queued, S.Handles, Total, S.Consistent, S.HandlesBelow, S.InQueues;
      hide Linked, NobodyEarly, S.MovedOver;
      iterations, transfers := 0, 0;
      while sched.ready != [] || sched.timers != []
        invariant Valid() && AllBegun()
        invariant old(sched.resumed) <= sched.resumed && iterations == |sched.resumed| - |old(sched.resumed)|
        invariant forall g :: g in Members(chains) ==> g in old(Members(chains)) || fresh(g)
        invariant Settled(Total(old(accounts)), old(stats.totalAllocations), old(stats.liveFrames),
                          transfers, Waiting() + iterations - old(Waiting()), iterations)
        decreases Total(accounts).pauses
      {
        AwaitReady();
        var t := ResumeFirst();
        transfers, iterations := transfers + t, iterations + 1;
      }
    }
  }

  lemma InMembers(chains: seq<seq<Frame>>, i: nat)
    requires i < |chains|
    ensures forall g :: g in chains[i] ==> g in Members(chains)
  {}

  lemma AllDone(loop: Loop)
    requires loop.Valid() && loop.Waiting() == 0 && loop.AllBegun()
    ensures forall i :: 0 <= i < |loop.roots| ==> Completed(loop.roots[i], loop.expected[i])
    ensures forall i :: 0 <= i < |loop.roots| ==> i < |loop.targets| && loop.clock.now >= loop.targets[i]
    ensures Total(loop.accounts) == Account(0, 0, 0, 0, |loop.roots|, AWAKE)
  {
    hide Chain, Promises, Completed;
    var q := loop.sched.Q();
    assert q.ready == [] && q.timers == [];
    assert S.Handles(q) == multiset{};
    forall i | 0 <= i < |loop.roots|
      ensures Completed(loop.roots[i], loop.expected[i]) && loop.accounts[i] == Account(0, 0, 0, 0, 1, AWAKE)
    {
      assert S.Handles(q)[i] == 0;
      assert loop.chains[i] == [];
      assert InProgress(loop.roots[i], loop.chains[i], loop.expected[i], loop.begun[i]);
      assert loop.accounts[i] == AccountOf([]);
    }
    TotalOfDone(loop.accounts);
  }

  // Any number of tasks with any trees of awaits, sleeps and yields, started
  // in order and then run by the scheduler: all come to their end, each with
  // the outcome that ordinary calls without any waiting would give; timers
  // have resumed coroutines in ascending (due, registration) order and never
  // early. Every round of the loop resumes one coroutine and uses up a pause,
  // no frame is left but the roots', and control is transferred twice for
  // every child and once more for every start and resumption.
  method RunTasks(roots: seq<Frame>, stats: FrameStats, clock: Clock)
    returns (iterations: nat, transfers: nat,
             ghost resumed: seq<S.Tag>, ghost resumedAt: seq<int>, ghost ran: seq<nat>)
    requires forall i :: 0 <= i < |roots| ==> Unstarted(roots[i])
    requires forall i, j :: 0 <= i < j < |roots| ==> roots[i] != roots[j]
    modifies roots, stats, clock
    ensures forall i :: 0 <= i < |roots| ==> Completed(roots[i], old(Eval(roots[i].code, roots[i].env)))
    ensures S.InOrder(resumed, resumedAt, ran)
    ensures forall i :: 0 <= i < |roots| ==>
              clock.now >= old(clock.now + Needs(roots[i].code, roots[i].env).asleep)
    ensures old(Total(Budget(roots)).yieldings) <= iterations == |resumed| <= old(Total(Budget(roots)).pauses)
    ensures transfers == |roots| + 2 * old(Total(Budget(roots)).spawns) + iterations
    ensures stats.totalAllocations == old(stats.totalAllocations + Total(Budget(roots)).spawns)
    ensures stats.liveFrames == old(stats.liveFrames)
  {
    ghost var budget := Total(Budget(roots));
    BudgetSize(roots);
    hide Eval, Needs, Completed, InProgress, Accounted, Apart, Queued, Unstarted, Total;
    hide S.Handles, S.Waiting, S.Consistent, S.HandlesBelow;
    var loop := new Loop(roots, stats, clock);
    assert loop.accounts == Budget(roots);
    var starting := loop.StartAll();
    iterations, transfers := loop.Run();
    transfers := starting + transfers;
    AllDone(loop);
    S.WokeInOrder(loop.sched.Q());
    resumed, resumedAt, ran := loop.sched.resumed, loop.sched.resumedAt, loop.sched.ran;
  }

  lemma BudgetSize(roots: seq<Frame>)
    ensures Total(Budget(roots)).length == |roots| && Total(Budget(roots)).held == |roots|
  {
    UnspentSize(Budget(roots));
  }

  lemma {:induction false} UnspentSize(accounts: seq<Account>)
    requires forall i :: 0 <= i < |accounts| ==> accounts[i].length == accounts[i].held == 1
    ensures Total(accounts).length == Total(accounts).held == |accounts|
  {
    if accounts != [] {
      UnspentSize(accounts[..|accounts| - 1]);
    }
  }
}

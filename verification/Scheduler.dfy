// The single-threaded event loop: a FIFO of ready coroutines, a priority
// queue of timers, and coroutines that suspend themselves into either.
module Scheduler {
  import opened Clocks

  type Handle = nat

  // What a coroutine does between being started and finishing.
  datatype Op =
    | Log(round: int)
    | Sleep(duration: int)  // co_await sched.sleep_for(duration)
    | Yield                 // co_await sched.yield()

  datatype Entry = Entry(handle: Handle, round: int)

  datatype Timer = Timer(due: int, order: nat, handle: Handle)

  // Why a handle is in the ready queue.
  datatype Tag = FromTimer(timer: Timer) | FromYield

  // timer_entry's order: due time, then registration order.
  predicate Before(a: Timer, b: Timer) {
    a.due < b.due || (a.due == b.due && a.order < b.order)
  }

  predicate Sorted(ts: seq<Timer>) {
    forall i, j :: 0 <= i < j < |ts| ==> Before(ts[i], ts[j])
  }

  // priority_queue::push, on the queue's contents in the order it will pop them
  function Insert(ts: seq<Timer>, t: Timer): seq<Timer> {
    if ts == [] then [t]
    else if Before(t, ts[0]) then [t] + ts
    else [ts[0]] + Insert(ts[1..], t)
  }

  lemma {:induction false} InsertSorted(ts: seq<Timer>, t: Timer)
    requires Sorted(ts) && forall x :: x in ts ==> x.order != t.order
    ensures Sorted(Insert(ts, t))
    ensures forall x :: x in Insert(ts, t) <==> x in ts || x == t
    ensures |Insert(ts, t)| == |ts| + 1
  {
    if ts != [] {
      assert ts == [ts[0]] + ts[1..];
      if !Before(t, ts[0]) {
        InsertSorted(ts[1..], t);
        var out := Insert(ts[1..], t);
        forall j | 0 <= j < |out| ensures Before(ts[0], out[j]) {
          assert out[j] in out;
          if out[j] != t {
            var k :| 0 <= k < |ts[1..]| && ts[1..][k] == out[j];
            assert ts[k + 1] == out[j];
          }
        }
      } else {
        forall j | 0 <= j < |ts| ensures Before(t, ts[j]) {}
      }
    }
  }

  function TimersOf(tags: seq<Tag>): seq<Timer> {
    if tags == [] then []
    else
      var k := |tags| - 1;
      TimersOf(tags[..k]) + if tags[k].FromTimer? then [tags[k].timer] else []
  }

  lemma TimersOfAppend(tags: seq<Tag>, t: Tag)
    ensures TimersOf(tags + [t]) == TimersOf(tags) + if t.FromTimer? then [t.timer] else []
  {
    assert (tags + [t])[..|tags|] == tags;
  }

  lemma {:induction false} TimersOfConcat(a: seq<Tag>, b: seq<Tag>)
    ensures TimersOf(a + b) == TimersOf(a) + TimersOf(b)
  {
    if b == [] {
      assert a + b == a;
    } else {
      var k := |b| - 1;
      TimersOfConcat(a, b[..k]);
      assert (a + b)[..|a| + k] == a + b[..k];
    }
  }

  function Ops(todo: seq<seq<Op>>): nat {
    if todo == [] then 0 else Ops(todo[..|todo| - 1]) + |todo[|todo| - 1]|
  }

  lemma {:induction false} OpsUpdate(todo: seq<seq<Op>>, h: nat, ops: seq<Op>)
    requires h < |todo|
    ensures Ops(todo[h := ops]) == Ops(todo) - |todo[h]| + |ops|
    decreases |todo|
  {
    var k := |todo| - 1;
    if h < k {
      OpsUpdate(todo[..k], h, ops);
      assert todo[h := ops][..k] == todo[..k][h := ops];
    } else {
      assert todo[h := ops][..k] == todo[..k];
    }
  }

  // ---- the queues, and what may happen to them ----

  // `tags`, `fired`, `resumed` and `resumedAt` record history: why each ready
  // handle is ready, which timers came due, and for every resumption why, when
  // and of whom.
  datatype Queues = Queues(
    ready: seq<Handle>,
    timers: seq<Timer>,
    nextSeq: nat,
    now: int,
    tags: seq<Tag>,
    fired: seq<Timer>,
    resumed: seq<Tag>,
    resumedAt: seq<int>,
    ran: seq<Handle>)

  // Everything a program can do to the scheduler, in any order: time passes, a
  // coroutine suspends on a timer it found not yet due or yields, the loop
  // moves the earliest due timer over, the loop resumes the first ready handle.
  datatype Event =
    | Tick(to: int)
    | Register(due: int, handle: Handle)
    | YieldBack(handle: Handle)
    | Fire
    | Wake

  predicate Enabled(q: Queues, e: Event) {
    match e
    case Tick(to) => q.now <= to
    case Register(due, _) => q.now < due    // the await_ready guard
    case YieldBack(_) => true
    case Fire => q.timers != [] && q.timers[0].due <= q.now
    case Wake => q.ready != [] && q.tags != []
  }

  function Apply(q: Queues, e: Event): Queues
    requires Enabled(q, e)
  {
    match e
    case Tick(to) => q.(now := to)
    case Register(due, h) => q.(timers := Insert(q.timers, Timer(due, q.nextSeq, h)), nextSeq := q.nextSeq + 1)
    case YieldBack(h) => q.(ready := q.ready + [h], tags := q.tags + [FromYield])
    case Fire =>
      var top := q.timers[0];
      q.(timers := q.timers[1..], ready := q.ready + [top.handle], tags := q.tags + [FromTimer(top)],
         fired := q.fired + [top])
    case Wake =>
      q.(ready := q.ready[1..], tags := q.tags[1..],
         resumed := q.resumed + [q.tags[0]], resumedAt := q.resumedAt + [q.now], ran := q.ran + [q.ready[0]])
  }

  predicate Ordered(q: Queues) {
    && Sorted(q.fired + q.timers)
    && (forall i :: 0 <= i < |q.timers| ==> q.timers[i].order < q.nextSeq)
    && (forall i :: 0 <= i < |q.fired| ==> q.fired[i].due <= q.now)
  }

  predicate Recorded(q: Queues) {
    && |q.tags| == |q.ready| && |q.resumedAt| == |q.resumed| == |q.ran|
    && TimersOf(q.resumed) + TimersOf(q.tags) == q.fired
    && (forall i :: 0 <= i < |q.tags| && q.tags[i].FromTimer? ==> q.tags[i].timer.due <= q.now)
    && (forall i :: 0 <= i < |q.tags| && q.tags[i].FromTimer? ==> q.tags[i].timer.handle == q.ready[i])
    && (forall i :: 0 <= i < |q.resumed| && q.resumed[i].FromTimer? ==> q.resumed[i].timer.due <= q.resumedAt[i])
    && (forall i :: 0 <= i < |q.resumed| && q.resumed[i].FromTimer? ==> q.resumed[i].timer.handle == q.ran[i])
  }

  predicate Consistent(q: Queues) {
    Ordered(q) && Recorded(q)
  }

  // A timer registered while not yet due comes after every timer that has fired.
  lemma RegisterKeepsOrder(fired: seq<Timer>, timers: seq<Timer>, t: Timer, now: int)
    requires Sorted(fired + timers)
    requires forall i :: 0 <= i < |fired| ==> fired[i].due <= now
    requires now < t.due
    requires forall i :: 0 <= i < |timers| ==> timers[i].order < t.order
    ensures Sorted(fired + Insert(timers, t))
    ensures forall x :: x in Insert(timers, t) <==> x in timers || x == t
    ensures |Insert(timers, t)| == |timers| + 1
  {
    var all := fired + timers;
    assert forall i :: 0 <= i < |timers| ==> timers[i] == all[|fired| + i];
    assert forall i :: 0 <= i < |fired| ==> fired[i] == all[i];
    InsertSorted(timers, t);
    var out := Insert(timers, t);
    forall i, j | 0 <= i < |fired| && 0 <= j < |out| ensures Before(fired[i], out[j]) {
      assert out[j] in out;
      if out[j] != t {
        var k :| 0 <= k < |timers| && timers[k] == out[j];
        assert Before(all[i], all[|fired| + k]);
      }
    }
  }

  lemma FireKeepsOrder(q: Queues)
    requires Ordered(q) && Enabled(q, Fire)
    ensures Ordered(Apply(q, Fire))
  {
    var top := q.timers[0];
    assert q.fired + q.timers == (q.fired + [top]) + q.timers[1..];
  }

  lemma WakeKeepsRecord(q: Queues)
    requires Recorded(q) && Enabled(q, Wake)
    ensures Recorded(Apply(q, Wake))
  {
    hide TimersOf;
    MoveTag(q.resumed, q.tags);
  }

  lemma MoveTag(resumed: seq<Tag>, tags: seq<Tag>)
    requires tags != []
    ensures TimersOf(resumed + [tags[0]]) + TimersOf(tags[1..]) == TimersOf(resumed) + TimersOf(tags)
  {
    hide TimersOf;
    TimersOfConcat(resumed, tags);
    TimersOfConcat(resumed + [tags[0]], tags[1..]);
    MovedFirst(resumed, tags);
  }

  lemma MovedFirst(resumed: seq<Tag>, tags: seq<Tag>)
    requires tags != []
    ensures (resumed + [tags[0]]) + tags[1..] == resumed + tags
  {}

  lemma StepKeeps(q: Queues, e: Event)
    requires Consistent(q) && Enabled(q, e)
    ensures Consistent(Apply(q, e))
  {
    hide Sorted, TimersOf;
    match e
    case Tick(_) =>
    case Register(due, h) =>
      hide Recorded;
      RegisterKeeps(q, due, h);
      StillRecorded(q, Apply(q, e));
    case YieldBack(h) =>
      hide Ordered;
      TimersOfAppend(q.tags, FromYield);
      StillOrdered(q, Apply(q, e));
    case Fire =>
      FireKeepsOrder(q);
      TimersOfAppend(q.tags, FromTimer(q.timers[0]));
    case Wake =>
      hide Ordered, Recorded;
      WakeKeepsRecord(q);
      StillOrdered(q, Apply(q, e));
  }

  lemma RegisterKeeps(q: Queues, due: int, h: Handle)
    requires Ordered(q) && Enabled(q, Register(due, h))
    ensures Ordered(Apply(q, Register(due, h)))
  {
    var t := Timer(due, q.nextSeq, h);
    RegisterKeepsOrder(q.fired, q.timers, t, q.now);
    var out := Insert(q.timers, t);
    hide Sorted, Insert;
    assert forall i :: 0 <= i < |out| ==> out[i] in out;
  }

  lemma StillOrdered(q: Queues, r: Queues)
    requires Ordered(q) && r.fired == q.fired && r.timers == q.timers && r.nextSeq == q.nextSeq && r.now == q.now
    ensures Ordered(r)
  {}

  lemma StillRecorded(q: Queues, r: Queues)
    requires Recorded(q) && r.tags == q.tags && r.ready == q.ready && r.fired == q.fired && r.now == q.now
    requires r.resumed == q.resumed && r.resumedAt == q.resumedAt && r.ran == q.ran
    ensures Recorded(r)
  {}

  // The ready queue is first in, first out: handles are resumed in the order in
  // which they became ready, a due timer's when it fires, a yielding one at once.
  lemma StepIsFifo(q: Queues, e: Event)
    requires Enabled(q, e)
    ensures var r := Apply(q, e);
            r.ran + r.ready == q.ran + q.ready
                               + if e.Fire? then [q.timers[0].handle] else if e.YieldBack? then [e.handle] else []
  {
    if e.Wake? {
      assert q.ready == [q.ready[0]] + q.ready[1..];
    }
  }

  // ---- whole runs of arbitrary coroutines ----

  const EMPTY := Queues([], [], 0, 0, [], [], [], [], [])

  ghost predicate IsRun(qs: seq<Queues>, es: seq<Event>) {
    && |qs| == |es| + 1
    && qs[0].(now := 0) == EMPTY
    && forall k :: 0 <= k < |es| ==> Enabled(qs[k], es[k]) && qs[k + 1] == Apply(qs[k], es[k])
  }

  lemma {:induction false} RunKeeps(qs: seq<Queues>, es: seq<Event>, k: nat)
    requires IsRun(qs, es) && k < |qs|
    ensures Consistent(qs[k])
  {
    if k > 0 {
      RunKeeps(qs, es, k - 1);
      StepKeeps(qs[k - 1], es[k - 1]);
    }
  }

  // What became ready earlier in a run is resumed earlier.
  lemma {:induction false} RunIsFifo(qs: seq<Queues>, es: seq<Event>, k: nat, m: nat)
    requires IsRun(qs, es) && k <= m < |qs|
    ensures qs[k].ran + qs[k].ready <= qs[m].ran + qs[m].ready
    decreases m - k
  {
    if k < m {
      RunIsFifo(qs, es, k, m - 1);
      StepIsFifo(qs[m - 1], es[m - 1]);
    }
  }

  // Over any whole run, whatever the coroutines do, the timers that resumed a
  // coroutine so far did so in ascending (due, registration) order and none
  // before it was due.
  lemma TimersWakeInOrder(qs: seq<Queues>, es: seq<Event>, k: nat)
    requires IsRun(qs, es) && k < |qs|
    ensures InOrder(qs[k].resumed, qs[k].resumedAt, qs[k].ran)
  {
    RunKeeps(qs, es, k);
    WokeInOrder(qs[k]);
  }

  // Sleepers were resumed in ascending (due, registration) order, each for its
  // own timer and none before it was due.
  predicate InOrder(resumed: seq<Tag>, resumedAt: seq<int>, ran: seq<Handle>) {
    && Sorted(TimersOf(resumed)) && |resumedAt| == |resumed| == |ran|
    && forall i :: 0 <= i < |resumed| && resumed[i].FromTimer? ==>
         resumed[i].timer.due <= resumedAt[i] && resumed[i].timer.handle == ran[i]
  }

  lemma WokeInOrder(q: Queues)
    requires Consistent(q)
    ensures InOrder(q.resumed, q.resumedAt, q.ran)
  {
    var all := q.fired + q.timers;
    assert forall i :: 0 <= i < |TimersOf(q.resumed)| ==> TimersOf(q.resumed)[i] == all[i];
  }

  // ---- the scheduler and the coroutines of examples.cpp ----

  predicate InQueues(ready: seq<Handle>, timers: seq<Timer>, h: Handle) {
    h in ready || exists i :: 0 <= i < |timers| && timers[i].handle == h
  }

  predicate HandlesBelow(q: Queues, n: nat) {
    && (forall i :: 0 <= i < |q.ready| ==> q.ready[i] < n)
    && (forall i :: 0 <= i < |q.timers| ==> q.timers[i].handle < n)
  }

  function Waiting(q: Queues): nat {
    |q.ready| + |q.timers|
  }

  function TimerHandles(timers: seq<Timer>): multiset<Handle> {
    if timers == [] then multiset{} else multiset{timers[0].handle} + TimerHandles(timers[1..])
  }

  // The handles of timers, in their order, and the tags they leave behind.
  function HandleList(timers: seq<Timer>): seq<Handle> {
    seq(|timers|, k requires 0 <= k < |timers| => timers[k].handle)
  }

  function TagList(timers: seq<Timer>): seq<Tag> {
    seq(|timers|, k requires 0 <= k < |timers| => FromTimer(timers[k]))
  }

  lemma ListsAppend(timers: seq<Timer>, t: Timer)
    ensures HandleList(timers + [t]) == HandleList(timers) + [t.handle]
    ensures TagList(timers + [t]) == TagList(timers) + [FromTimer(t)]
  {}

  // From q to r the earliest timers have fired, in order, each handle going to
  // the back of the ready queue; nothing else has changed but the time.
  predicate MovedOver(q: Queues, r: Queues) {
    && q.fired <= r.fired
    && var more := r.fired[|q.fired|..];
       && q.timers == more + r.timers
       && r.ready == q.ready + HandleList(more) && r.tags == q.tags + TagList(more)
  }

  lemma NothingMoved(q: Queues, r: Queues)
    requires r.fired == q.fired && r.timers == q.timers && r.ready == q.ready && r.tags == q.tags
    ensures MovedOver(q, r)
  {
    assert q.fired[|q.fired|..] == [];
  }

  lemma MovesOver(q: Queues, r: Queues)
    requires MovedOver(q, r) && Enabled(r, Fire)
    ensures MovedOver(q, Apply(r, Fire))
  {
    var top, more := r.timers[0], r.fired[|q.fired|..];
    ListsAppend(more, top);
    assert (r.fired + [top])[|q.fired|..] == more + [top];
    assert r.timers == [top] + r.timers[1..];
  }

  lemma StillMovedOver(q: Queues, r: Queues, t: Queues)
    requires MovedOver(q, r) && t.fired == r.fired && t.timers == r.timers && t.ready == r.ready && t.tags == r.tags
    ensures MovedOver(q, t)
  {}

  // Every handle, as often as it waits.
  function Handles(q: Queues): multiset<Handle> {
    multiset(q.ready) + TimerHandles(q.timers)
  }

  lemma {:induction false} InsertMembers(ts: seq<Timer>, t: Timer)
    ensures forall x :: x in Insert(ts, t) <==> x in ts || x == t
  {
    if ts != [] {
      InsertMembers(ts[1..], t);
      assert ts == [ts[0]] + ts[1..];
    }
  }

  lemma {:induction false} InsertHandles(ts: seq<Timer>, t: Timer)
    ensures TimerHandles(Insert(ts, t)) == TimerHandles(ts) + multiset{t.handle}
  {
    if ts != [] && !Before(t, ts[0]) {
      InsertHandles(ts[1..], t);
      assert Insert(ts, t)[1..] == Insert(ts[1..], t);
    } else {
      assert Insert(ts, t)[1..] == ts;
    }
  }

  // What an event does to the handles that wait.
  lemma StepCountsHandles(q: Queues, e: Event)
    requires Enabled(q, e)
    ensures e.Register? || e.YieldBack? ==> Handles(Apply(q, e)) == Handles(q) + multiset{e.handle}
    ensures e.Wake? ==> Handles(Apply(q, e)) + multiset{q.ready[0]} == Handles(q)
    ensures e.Tick? || e.Fire? ==> Handles(Apply(q, e)) == Handles(q)
  {
    match e
    case Register(due, h) => InsertHandles(q.timers, Timer(due, q.nextSeq, h));
    case Wake => assert q.ready == [q.ready[0]] + q.ready[1..];
    case _ =>
  }

  lemma {:induction false} TimerHandlesAt(timers: seq<Timer>, k: nat)
    requires k < |timers|
    ensures TimerHandles(timers)[timers[k].handle] > 0
  {
    if k > 0 {
      TimerHandlesAt(timers[1..], k - 1);
    }
  }

  lemma SameHandles(q: Queues, r: Queues)
    requires q.ready == r.ready && q.timers == r.timers
    ensures Handles(q) == Handles(r) && Waiting(q) == Waiting(r)
  {}

  lemma TickKeeps(q: Queues, t: int)
    requires Consistent(q) && q.now <= t
    ensures Consistent(q.(now := t))
    ensures forall n :: HandlesBelow(q, n) ==> HandlesBelow(q.(now := t), n)
    ensures Handles(q.(now := t)) == Handles(q) && Waiting(q.(now := t)) == Waiting(q)
  {}

  // Registering, yielding and firing lose no handle; resuming takes out one.
  lemma StepMovesHandles(q: Queues, e: Event, n: nat)
    requires Consistent(q) && Enabled(q, e) && HandlesBelow(q, n)
    requires e.Register? || e.YieldBack? ==> e.handle < n
    ensures HandlesBelow(Apply(q, e), n)
    ensures e.Wake? ==> forall h :: InQueues(q.ready, q.timers, h) && h != q.ready[0] ==>
              InQueues(Apply(q, e).ready, Apply(q, e).timers, h)
    ensures !e.Wake? ==> forall h :: InQueues(q.ready, q.timers, h) ==>
              InQueues(Apply(q, e).ready, Apply(q, e).timers, h)
    ensures e.Register? || e.YieldBack? ==> InQueues(Apply(q, e).ready, Apply(q, e).timers, e.handle)
    ensures Waiting(Apply(q, e)) ==
            Waiting(q) + if e.Wake? then -1 else if e.Register? || e.YieldBack? then 1 else 0
  {
    match e
    case Tick(_) =>
    case Register(due, h) => RegisterMovesHandles(q, due, h, n);
    case YieldBack(h) =>
      assert Apply(q, e).ready[|q.ready|] == h;
      assert forall g :: g in q.ready ==> g in Apply(q, e).ready;
    case Fire =>
      var t := Apply(q, e);
      assert t.ready[|q.ready|] == q.timers[0].handle;
      forall h | InQueues(q.ready, q.timers, h) ensures InQueues(t.ready, t.timers, h) {
        if h !in q.ready {
          var i :| 0 <= i < |q.timers| && q.timers[i].handle == h;
          if i > 0 {
            assert t.timers[i - 1] == q.timers[i];
          }
        }
      }
    case Wake =>
      assert q.ready == [q.ready[0]] + q.ready[1..];
  }

  lemma RegisterMovesHandles(q: Queues, due: int, h: Handle, n: nat)
    requires Consistent(q) && Enabled(q, Register(due, h)) && HandlesBelow(q, n) && h < n
    ensures var t := Apply(q, Register(due, h));
            && HandlesBelow(t, n) && InQueues(t.ready, t.timers, h) && Waiting(t) == Waiting(q) + 1
            && forall g :: InQueues(q.ready, q.timers, g) ==> InQueues(t.ready, t.timers, g)
  {
    var entry := Timer(due, q.nextSeq, h);
    RegisterKeepsOrder(q.fired, q.timers, entry, q.now);
    var out := Insert(q.timers, entry);
    assert entry in out;
    forall g | InQueues(q.ready, q.timers, g) && g !in q.ready
      ensures exists i :: 0 <= i < |out| && out[i].handle == g
    {
      var i :| 0 <= i < |q.timers| && q.timers[i].handle == g;
      assert q.timers[i] in out;
    }
    forall i | 0 <= i < |out| ensures out[i].handle < n {
      assert out[i] in out;
    }
  }

  lemma QuietEnd(q: Queues)
    requires Consistent(q) && q.ready == [] && q.timers == []
    ensures TimersOf(q.resumed) == q.fired && Sorted(q.fired)
    ensures forall h :: !InQueues(q.ready, q.timers, h)
  {
    assert q.tags == [];
    assert q.fired + q.timers == q.fired;
  }

  // ---- coroutines that only yield ----

  predicate YieldOnly(ops: seq<Op>) {
    forall i :: 0 <= i < |ops| ==> !ops[i].Sleep?
  }

  // One resumption of a coroutine that never sleeps: what it logs, what it
  // still has to do, and whether it went back to the ready queue.
  datatype Burst = Burst(logged: seq<Entry>, rest: seq<Op>, yielded: bool)

  function RunBurst(h: Handle, ops: seq<Op>): (b: Burst)
    requires YieldOnly(ops)
    ensures YieldOnly(b.rest) && |b.rest| + (if b.yielded then 1 else 0) <= |ops|
    ensures !b.yielded ==> b.rest == []
  {
    if ops == [] then Burst([], [], false)
    else if ops[0].Yield? then Burst([], ops[1..], true)
    else
      var b := RunBurst(h, ops[1..]);
      b.(logged := [Entry(h, ops[0].round)] + b.logged)
  }

  predicate AllYieldOnly(todo: seq<seq<Op>>) {
    forall h :: 0 <= h < |todo| ==> YieldOnly(todo[h])
  }

  // What a loop over a ready queue of such coroutines logs.
  function Rotate(ready: seq<Handle>, todo: seq<seq<Op>>): seq<Entry>
    requires AllYieldOnly(todo) && forall i :: 0 <= i < |ready| ==> ready[i] < |todo|
    decreases 2 * Ops(todo) + |ready|
  {
    if ready == [] then []
    else
      var h := ready[0];
      var b := RunBurst(h, todo[h]);
      OpsUpdate(todo, h, b.rest);
      b.logged + Rotate(ready[1..] + (if b.yielded then [h] else []), todo[h := b.rest])
  }

  // ---- one stretch of a coroutine, sleeps included ----

  // What operations log, and how long they sleep at least.
  function Logged(h: Handle, ops: seq<Op>): seq<Entry> {
    if ops == [] then []
    else
      var k := |ops| - 1;
      Logged(h, ops[..k]) + if ops[k].Log? then [Entry(h, ops[k].round)] else []
  }

  function SleepTime(ops: seq<Op>): nat {
    if ops == [] then 0
    else
      var k := |ops| - 1;
      SleepTime(ops[..k]) + if ops[k].Sleep? && ops[k].duration > 0 then ops[k].duration else 0
  }

  lemma OneMoreOp(h: Handle, ops: seq<Op>, k: nat)
    requires k < |ops|
    ensures Logged(h, ops[..k + 1]) == Logged(h, ops[..k]) + if ops[k].Log? then [Entry(h, ops[k].round)] else []
    ensures SleepTime(ops[..k + 1]) ==
            SleepTime(ops[..k]) + if ops[k].Sleep? && ops[k].duration > 0 then ops[k].duration else 0
  {
    assert ops[..k + 1][..k] == ops[..k];
  }

  // A resumed coroutine did k of its operations, the last of which it may have
  // suspended on; it passes no yield without suspending, and no sleep before
  // the time is over.
  predicate RanTo(ops: seq<Op>, k: nat, suspended: bool, elapsed: int) {
    && k <= |ops| && (!suspended ==> k == |ops|) && (suspended ==> k > 0 && !ops[k - 1].Log?)
    && var passed := if suspended then k - 1 else k;
       && (forall j :: 0 <= j < passed ==> !ops[j].Yield?)
       && elapsed >= SleepTime(ops[..passed])
  }

  lemma NothingDone(h: Handle, ops: seq<Op>)
    ensures Logged(h, ops[..0]) == [] && SleepTime(ops[..0]) == 0
  {}

  // For a coroutine that never sleeps there is only one way to run.
  lemma {:induction false} BurstIsRun(h: Handle, ops: seq<Op>, k: nat, suspended: bool, elapsed: int)
    requires RanTo(ops, k, suspended, elapsed)
    ensures YieldOnly(ops) ==> RunBurst(h, ops) == Burst(Logged(h, ops[..k]), ops[k..], suspended)
    decreases |ops|
  {
    if YieldOnly(ops) && ops != [] && !ops[0].Yield? {
      var rest := ops[1..];
      assert forall j :: 0 <= j < |rest| ==> rest[j] == ops[j + 1];
      assert rest[..k - 1] == ops[1..k] && rest[k - 1..] == ops[k..];
      NoSleep(rest[..if suspended then k - 2 else k - 1]);
      NoSleep(ops[..if suspended then k - 1 else k]);
      BurstIsRun(h, rest, k - 1, suspended, elapsed);
      FirstLogged(h, ops, k);
    } else if YieldOnly(ops) {
      NothingDone(h, ops);
      if ops != [] {
        OneMoreOp(h, ops, 0);
      }
    }
  }

  lemma FirstLogged(h: Handle, ops: seq<Op>, k: nat)
    requires 0 < k <= |ops| && ops[0].Log?
    ensures Logged(h, ops[..k]) == [Entry(h, ops[0].round)] + Logged(h, ops[1..][..k - 1])
  {
    assert ops[..k] == [ops[0]] + ops[1..][..k - 1];
    LoggedConcat(h, [ops[0]], ops[1..][..k - 1]);
    assert [ops[0]][..0] == [];
  }

  lemma {:induction false} NoSleep(ops: seq<Op>)
    requires forall j :: 0 <= j < |ops| ==> !ops[j].Sleep?
    ensures SleepTime(ops) == 0
  {
    if ops != [] {
      NoSleep(ops[..|ops| - 1]);
    }
  }

  // The rounds a coroutine has logged, and those it still has to log.
  function RoundsIn(log: seq<Entry>, h: Handle): seq<int> {
    if log == [] then []
    else
      var k := |log| - 1;
      RoundsIn(log[..k], h) + if log[k].handle == h then [log[k].round] else []
  }

  lemma {:induction false} RoundsAppend(log: seq<Entry>, more: seq<Entry>, h: Handle)
    ensures RoundsIn(log + more, h) == RoundsIn(log, h) + RoundsIn(more, h)
  {
    if more == [] {
      assert log + more == log;
    } else {
      var k := |more| - 1;
      RoundsAppend(log, more[..k], h);
      assert (log + more)[..|log| + k] == log + more[..k];
    }
  }

  lemma {:induction false} LoggedByOne(h: Handle, ops: seq<Op>, g: Handle)
    ensures g != h ==> RoundsIn(Logged(h, ops), g) == []
    decreases |ops|
  {
    if ops != [] {
      var k := |ops| - 1;
      LoggedByOne(h, ops[..k], g);
      var before := Logged(h, ops[..k]);
      if ops[k].Log? {
        var e := Entry(h, ops[k].round);
        assert Logged(h, ops) == before + [e];
        RoundsAppend(before, [e], g);
        RoundsOfOne(e, g);
      } else {
        assert Logged(h, ops) == before + [] == before;
      }
    }
  }

  lemma RoundsOfOne(e: Entry, g: Handle)
    ensures RoundsIn([e], g) == if e.handle == g then [e.round] else []
  {
    assert [e][..0] == [];
  }

  lemma {:induction false} LoggedConcat(h: Handle, a: seq<Op>, b: seq<Op>)
    ensures Logged(h, a + b) == Logged(h, a) + Logged(h, b)
  {
    if b == [] {
      assert a + b == a;
    } else {
      var k := |b| - 1;
      LoggedConcat(h, a, b[..k]);
      assert (a + b)[..|a| + k] == a + b[..k];
    }
  }

  // What coroutine h has logged and has still to log, in order.
  function Story(log: seq<Entry>, ops: seq<Op>, h: Handle): seq<int> {
    RoundsIn(log, h) + RoundsIn(Logged(h, ops), h)
  }

  lemma StoryEnds(log: seq<Entry>, h: Handle)
    ensures Story(log, [], h) == RoundsIn(log, h)
  {}

  lemma NothingToRotate(todo: seq<seq<Op>>)
    requires AllYieldOnly(todo)
    ensures Rotate([], todo) == []
  {}

  lemma StoryGoesOn(log: seq<Entry>, h: Handle, ops: seq<Op>, k: nat, g: Handle, theirs: seq<Op>)
    requires k <= |ops| && (g == h ==> theirs == ops)
    ensures Story(log + Logged(h, ops[..k]), if g == h then ops[k..] else theirs, g) == Story(log, theirs, g)
  {
    hide RoundsIn, Logged;
    RoundsAppend(log, Logged(h, ops[..k]), g);
    if g == h {
      assert ops == ops[..k] + ops[k..];
      LoggedConcat(h, ops[..k], ops[k..]);
      RoundsAppend(Logged(h, ops[..k]), Logged(h, ops[k..]), h);
    } else {
      LoggedByOne(h, ops[..k], g);
    }
  }

  lemma RotateOnce(ready: seq<Handle>, todo: seq<seq<Op>>)
    requires AllYieldOnly(todo) && (forall i :: 0 <= i < |ready| ==> ready[i] < |todo|) && ready != []
    ensures var h := ready[0];
            var b := RunBurst(h, todo[h]);
            var rest, left := ready[1..] + (if b.yielded then [h] else []), todo[h := b.rest];
            && AllYieldOnly(left)
            && Rotate(ready, todo) == b.logged + Rotate(rest, left)
  {}

  class Scheduler {
    var ready: seq<Handle>
    var timers: seq<Timer>
    var nextSeq: nat
    var todo: seq<seq<Op>>         // what each coroutine still has to do
    var log: seq<Entry>
    const clock: Clock
    ghost var tags: seq<Tag>
    ghost var fired: seq<Timer>
    ghost var resumed: seq<Tag>
    ghost var resumedAt: seq<int>
    ghost var ran: seq<Handle>

    ghost function Q(): Queues
      reads this, clock
    {
      Queues(ready, timers, nextSeq, clock.now, tags, fired, resumed, resumedAt, ran)
    }

    ghost predicate Valid()
      reads this, clock
    {
      Consistent(Q()) && HandlesBelow(Q(), |todo|)
    }

    // A coroutine with work left waits in one of the queues.
    ghost predicate NobodyForgotten()
      reads this, clock
    {
      forall h :: 0 <= h < |todo| && todo[h] != [] ==> InQueues(ready, timers, h)
    }

    constructor (todo: seq<seq<Op>>, clock: Clock)
      ensures Valid() && this.clock == clock && Q().(now := 0) == EMPTY && this.todo == todo && log == []
    {
      this.clock := clock;
      this.todo, log := todo, [];
      ready, timers, nextSeq := [], [], 0;
      tags, fired, resumed, resumedAt, ran := [], [], [], [], [];
    }

    method Read() returns (t: int)
      requires Valid()
      modifies clock
      ensures clock.now == t >= old(clock.now) && Valid()
    {
      ghost var q := Q();
      t := clock.Read();
      StepKeeps(q, Tick(t));
    }

    method SleepUntil(due: int)
      requires Valid()
      modifies clock
      ensures clock.now >= due && clock.now >= old(clock.now) && Valid()
    {
      ghost var q := Q();
      clock.SleepUntil(due);
      StepKeeps(q, Tick(clock.now));
    }

    // A timer is registered for a coroutine that is not yet due.
    method AddTimer(due: int, h: Handle)
      requires Valid() && h < |todo| && clock.now < due
      modifies `timers, `nextSeq
      ensures Valid() && Q() == Apply(old(Q()), Register(due, h))
    {
      StepKeeps(Q(), Register(due, h));
      StepMovesHandles(Q(), Register(due, h), |todo|);
      timers, nextSeq := Insert(timers, Timer(due, nextSeq, h)), nextSeq + 1;
    }

    // sleep_awaiter: go on if already due, else register a timer and suspend.
    method SleepAwait(h: Handle, due: int) returns (suspended: bool)
      requires Valid() && h < |todo|
      modifies clock, `timers, `nextSeq
      ensures Valid() && clock.now >= old(clock.now)
      ensures suspended <==> clock.now < due
      ensures suspended ==> Q() == Apply(old(Q()).(now := clock.now), Register(due, h))
      ensures !suspended ==> Q() == old(Q()).(now := clock.now)
    {
      var t := Read();
      if t >= due {
        return false;
      }
      AddTimer(due, h);
      suspended := true;
    }

    // yield_awaiter: to the back of the ready queue.
    method YieldAwait(h: Handle)
      requires Valid() && h < |todo|
      modifies `ready, `tags
      ensures Valid() && Q() == Apply(old(Q()), YieldBack(h))
      ensures ready == old(ready) + [h] && InQueues(ready, timers, h)
      ensures forall g :: InQueues(old(ready), timers, g) ==> InQueues(ready, timers, g)
    {
      StepKeeps(Q(), YieldBack(h));
      StepMovesHandles(Q(), YieldBack(h), |todo|);
      ready, tags := ready + [h], tags + [FromYield];
    }

    // sched.sleep_for(duration), awaited: the due time is fixed before the guard reads the clock again.
    method SleepFor(h: Handle, duration: int) returns (suspended: bool, ghost start: int)
      requires Valid() && h < |todo|
      modifies clock, `timers, `nextSeq
      ensures Valid() && old(clock.now) <= start <= clock.now
      ensures suspended <==> clock.now < start + duration
      ensures suspended ==> Q() == Apply(old(Q()).(now := clock.now), Register(start + duration, h))
      ensures !suspended ==> Q() == old(Q()).(now := clock.now)
      ensures suspended ==> InQueues(ready, timers, h) && |timers| == |old(timers)| + 1
      ensures suspended ==> forall g :: InQueues(ready, old(timers), g) ==> InQueues(ready, timers, g)
    {
      var started := Read();
      start := started;
      var due := started + duration;
      ghost var q := Q();
      suspended := SleepAwait(h, due);
      if suspended {
        TickKeeps(q, clock.now);
        StepMovesHandles(q.(now := clock.now), Register(due, h), |todo|);
      }
    }

    // The coroutine's next operation; tells whether it suspended there.
    method RunOp(h: Handle) returns (suspended: bool, ghost start: int)
      requires Valid() && h < |todo| && todo[h] != []
      modifies clock, `timers, `nextSeq, `ready, `tags, `todo, `log
      ensures Valid() && todo == old(todo)[h := old(todo)[h][1..]]
      ensures clock.now >= old(clock.now)
      ensures !suspended ==> ready == old(ready) && timers == old(timers) && nextSeq == old(nextSeq)
      ensures suspended && old(todo)[h][0].Sleep? ==>
                && ready == old(ready)
                && timers == Insert(old(timers), Timer(start + old(todo)[h][0].duration, old(nextSeq), h))
      ensures suspended ==> InQueues(ready, timers, h) && |ready| + |timers| == |old(ready)| + |old(timers)| + 1
      ensures forall g :: InQueues(old(ready), old(timers), g) ==> InQueues(ready, timers, g)
      ensures match old(todo)[h][0]
              case Log(round) => !suspended && log == old(log) + [Entry(h, round)]
              case Yield => suspended && ready == old(ready) + [h] && timers == old(timers) && log == old(log)
              case Sleep(duration) =>
                && log == old(log) && old(clock.now) <= start <= clock.now
                && (suspended <==> clock.now < start + duration)
                && Q() == if suspended then Apply(old(Q()).(now := clock.now), Register(start + duration, h))
                          else old(Q()).(now := clock.now)
    {
      hide Consistent, HandlesBelow, InQueues, Enabled, Insert;
      suspended, start := false, clock.now;
      var op := todo[h][0];
      todo := todo[h := todo[h][1..]];
      match op {
        case Log(round) =>
          log := log + [Entry(h, round)];
        case Sleep(duration) =>
          suspended, start := SleepFor(h, duration);
        case Yield =>
          YieldAwait(h);
          suspended := true;
      }
    }

    // The coroutine runs on from where it was suspended to its next suspension or its end.
    method Resume(h: Handle) returns (suspended: bool, ghost k: nat, ghost start: int)
      requires Valid() && h < |todo|
      modifies clock, `timers, `nextSeq, `ready, `tags, `todo, `log
      ensures Valid() && |todo| == |old(todo)|
      ensures forall g :: 0 <= g < |todo| && g != h ==> todo[g] == old(todo)[g]
      ensures todo[h] == [] || InQueues(ready, timers, h)
      ensures forall g :: InQueues(old(ready), old(timers), g) ==> InQueues(ready, timers, g)
      ensures 2 * Ops(todo) + |ready| + |timers| <= 2 * Ops(old(todo)) + |old(ready)| + |old(timers)|
      ensures k <= |old(todo)[h]| && RanTo(old(todo)[h], k, suspended, clock.now - old(clock.now))
      ensures todo[h] == old(todo)[h][k..] && log == old(log) + Logged(h, old(todo)[h][..k])
      ensures !suspended ==> ready == old(ready) && timers == old(timers)
      ensures suspended && old(todo)[h][k - 1].Yield? ==> ready == old(ready) + [h] && timers == old(timers)
      ensures suspended && old(todo)[h][k - 1].Sleep? ==>
                var due := start + old(todo)[h][k - 1].duration;
                && old(clock.now) + SleepTime(old(todo)[h][..k - 1]) <= start <= clock.now < due
                && ready == old(ready) && timers == Insert(old(timers), Timer(due, old(nextSeq), h))
      ensures YieldOnly(old(todo)[h]) ==>
                var b := RunBurst(h, old(todo)[h]);
                && todo == old(todo)[h := b.rest] && log == old(log) + b.logged && timers == old(timers)
                && ready == old(ready) + if b.yielded then [h] else []
    {
      hide Valid, InQueues, Ops, Logged, SleepTime, Apply, Insert, RunBurst;
      suspended, k, start := false, 0, clock.now;
      ghost var ops := todo[h];
      NothingDone(h, ops);
      while todo[h] != [] && !suspended
        invariant Valid() && |todo| == |old(todo)|
        invariant !suspended ==> ready == old(ready) && timers == old(timers) && nextSeq == old(nextSeq)
        invariant suspended ==> InQueues(ready, timers, h)
        invariant forall g :: InQueues(old(ready), old(timers), g) ==> InQueues(ready, timers, g)
        invariant k <= |ops| && todo == old(todo)[h := ops[k..]]
        invariant 2 * Ops(todo) + |ready| + |timers| <= 2 * Ops(old(todo)) + |old(ready)| + |old(timers)|
        invariant log == old(log) + Logged(h, ops[..k])
        invariant suspended ==> RanTo(ops, k, true, clock.now - old(clock.now))
        invariant !suspended ==> (forall j :: 0 <= j < k ==> !ops[j].Yield?)
                                 && clock.now - old(clock.now) >= SleepTime(ops[..k])
        invariant suspended && ops[k - 1].Yield? ==> ready == old(ready) + [h] && timers == old(timers)
        invariant suspended && ops[k - 1].Sleep? ==>
                    var due := start + ops[k - 1].duration;
                    && old(clock.now) + SleepTime(ops[..k - 1]) <= start <= clock.now < due
                    && ready == old(ready) && timers == Insert(old(timers), Timer(due, old(nextSeq), h))
        decreases |todo[h]|
      {
        OpsUpdate(todo, h, todo[h][1..]);
        OneMoreOp(h, ops, k);
        assert ops[k..][1..] == ops[k + 1..];
        suspended, start := RunOp(h);
        k := k + 1;
      }
      BurstIsRun(h, ops, k, suspended, clock.now - old(clock.now));
    }

    // The earliest timer has come due: its coroutine is ready.
    method FireFirst()
      requires Valid() && timers != [] && timers[0].due <= clock.now
      modifies `timers, `ready, `tags, `fired
      ensures Valid() && Q() == Apply(old(Q()), Fire) && |timers| == |old(timers)| - 1
      ensures ready == old(ready) + [old(timers)[0].handle] && fired == old(fired) + [old(timers)[0]]
      ensures tags == old(tags) + [FromTimer(old(timers)[0])] && timers == old(timers)[1..]
      ensures Waiting(Q()) == Waiting(old(Q())) && Handles(Q()) == Handles(old(Q())) && old(fired) <= fired
      ensures forall h :: InQueues(old(ready), old(timers), h) ==> InQueues(ready, timers, h)
    {
      hide Consistent, HandlesBelow, InQueues, Handles;
      StepKeeps(Q(), Fire);
      StepMovesHandles(Q(), Fire, |todo|);
      StepCountsHandles(Q(), Fire);
      var top := timers[0];
      ready, tags, fired, timers := ready + [top.handle], tags + [FromTimer(top)], fired + [top], timers[1..];
    }

    // Moves every timer that has come due to the ready queue, earliest first.
    method Drain()
      requires Valid()
      modifies clock, `timers, `ready, `tags, `fired
      ensures Valid() && clock.now >= old(clock.now)
      ensures Waiting(Q()) == Waiting(old(Q())) && Handles(Q()) == Handles(old(Q())) && old(fired) <= fired
      ensures forall h :: InQueues(old(ready), old(timers), h) ==> InQueues(ready, timers, h)
      ensures old(ready) != [] || (old(timers) != [] && old(timers)[0].due <= old(clock.now)) ==> ready != []
      ensures old(timers) == [] ==> ready == old(ready) && timers == []
      ensures timers == [] || timers[0].due > clock.now
      ensures MovedOver(old(Q()), Q())
    {
      hide Consistent, HandlesBelow, InQueues, TimerHandles, Apply, MovedOver;
      ghost var before := Q();
      var t := Read();
      NothingMoved(before, Q());
      while timers != [] && timers[0].due <= t
        invariant Valid() && t == clock.now >= old(clock.now)
        invariant Waiting(Q()) == Waiting(old(Q())) && Handles(Q()) == Handles(old(Q())) && old(fired) <= fired
        invariant forall h :: InQueues(old(ready), old(timers), h) ==> InQueues(ready, timers, h)
        invariant (timers == old(timers) && ready == old(ready)) || ready != []
        invariant MovedOver(old(Q()), Q())
        invariant old(timers) == [] ==> ready == old(ready) && timers == []
        decreases |timers|
      {
        MovesOver(old(Q()), Q());
        FireFirst();
        ghost var q := Q();
        t := Read();
        StillMovedOver(old(Q()), q, Q());
      }
    }

    method PopFirst() returns (h: Handle)
      requires Valid() && ready != []
      modifies `ready, `tags, `resumed, `resumedAt, `ran
      ensures Valid() && h == old(ready)[0] && h < |todo|
      ensures Q() == Apply(old(Q()), Wake)
      ensures ready == old(ready)[1..] && resumed == old(resumed) + [old(tags)[0]]
      ensures forall g :: InQueues(old(ready), old(timers), g) && g != h ==> InQueues(ready, timers, g)
    {
      h := ready[0];
      StepKeeps(Q(), Wake);
      StepMovesHandles(Q(), Wake, |todo|);
      resumed, resumedAt, ran := resumed + [tags[0]], resumedAt + [clock.now], ran + [ready[0]];
      ready, tags := ready[1..], tags[1..];
    }

    // Takes the first ready coroutine and resumes it.
    method ResumeFirst()
      requires Valid() && NobodyForgotten() && ready != []
      modifies this, clock
      ensures Valid() && NobodyForgotten() && |todo| == |old(todo)|
      ensures 2 * Ops(todo) + Waiting(Q()) < 2 * Ops(old(todo)) + Waiting(old(Q()))
      ensures fired == old(fired) && |resumed| == |old(resumed)| + 1 && old(resumed) <= resumed
      ensures forall g: nat :: g < |todo| ==> Story(log, todo[g], g) == Story(old(log), old(todo)[g], g)
      ensures AllYieldOnly(old(todo)) ==>
                && AllYieldOnly(todo) && timers == old(timers)
                && old(log) + Rotate(old(ready), old(todo)) == log + Rotate(ready, todo)
    {
      hide Consistent, InQueues, Apply, Ops, RunBurst, YieldOnly, Story, RanTo, Logged, SleepTime, Insert;
      ghost var work, queue := todo, ready;
      var h := PopFirst();
      ghost var was, k, start := log, 0, 0;
      var suspended;
      suspended, k, start := Resume(h);
      forall g: nat | g < |todo| ensures Story(log, todo[g], g) == Story(was, work[g], g) {
        StoryGoesOn(was, h, work[h], k, g, work[g]);
      }
      if AllYieldOnly(work) {
        RotateOnce(queue, work);
        hide Rotate;
      }
    }

    // Every iteration resumes exactly one coroutine; the loop ends with all of
    // them finished, and timers have resumed coroutines in order.
    method Run() returns (iterations: nat)
      requires Valid() && NobodyForgotten()
      modifies this, clock
      ensures Valid() && ready == [] && timers == []
      ensures |todo| == |old(todo)| && forall h :: 0 <= h < |todo| ==> todo[h] == []
      ensures TimersOf(resumed) == fired && old(fired) <= fired && Sorted(fired)
      ensures old(resumed) <= resumed && iterations == |resumed| - |old(resumed)|
      ensures forall g: nat :: g < |todo| ==>
                RoundsIn(log, g) == RoundsIn(old(log), g) + RoundsIn(Logged(g, old(todo)[g]), g)
      ensures AllYieldOnly(old(todo)) && old(timers) == [] ==>
                log == old(log) + Rotate(old(ready), old(todo))
    {
      hide InQueues, Consistent, HandleList, TagList, Handles, Rotate, Ops, AllYieldOnly, TimersOf, Sorted;
      iterations := 0;
      while ready != [] || timers != []
        invariant Valid() && NobodyForgotten()
        invariant |todo| == |old(todo)| && old(fired) <= fired
        invariant old(resumed) <= resumed && iterations == |resumed| - |old(resumed)|
        invariant forall g: nat :: g < |todo| ==> Story(log, todo[g], g) == Story(old(log), old(todo)[g], g)
        invariant AllYieldOnly(old(todo)) && old(timers) == [] ==>
                    AllYieldOnly(todo) && timers == []
                    && log + Rotate(ready, todo) == old(log) + Rotate(old(ready), old(todo))
        decreases 2 * Ops(todo) + Waiting(Q())
      {
        if ready == [] {
          SleepUntil(timers[0].due);
        }
        Drain();
        if ready != [] {
          ResumeFirst();
        }
        iterations := iterations + 1;
      }
      QuietEnd(Q());
      hide NobodyForgotten, Waiting;
      if AllYieldOnly(todo) {
        NothingToRotate(todo);
      }
      forall g: nat | g < |todo|
        ensures RoundsIn(log, g) == RoundsIn(old(log), g) + RoundsIn(Logged(g, old(todo)[g]), g)
      {
        StoryEnds(log, g);
      }
    }
  }

  // ---- round_robin: workers that log a round and yield ----

  // polite_worker from round r on
  function Polite(r: int, rounds: int): seq<Op>
    decreases rounds - r
  {
    if r > rounds then [] else [Log(r), Yield] + Polite(r + 1, rounds)
  }

  lemma {:induction false} PoliteYieldsOnly(r: int, rounds: int)
    ensures YieldOnly(Polite(r, rounds))
    decreases rounds - r
  {
    if r <= rounds {
      PoliteYieldsOnly(r + 1, rounds);
    }
  }

  lemma PoliteBurst(h: Handle, r: int, rounds: int)
    ensures YieldOnly(Polite(r, rounds))
    ensures RunBurst(h, Polite(r, rounds)) ==
            if r <= rounds then Burst([Entry(h, r)], Polite(r + 1, rounds), true) else Burst([], [], false)
  {
    PoliteYieldsOnly(r, rounds);
    if r <= rounds {
      var ops := Polite(r, rounds);
      assert ops[1..] == [Yield] + Polite(r + 1, rounds);
      assert ops[1..][1..] == Polite(r + 1, rounds);
    }
  }

  // The workers from index i on that reach round r, in index order.
  function Round(rounds: seq<int>, r: int, i: nat): seq<Entry>
    requires i <= |rounds|
    decreases |rounds| - i
  {
    if i == |rounds| then []
    else (if rounds[i] >= r then [Entry(i, r)] else []) + Round(rounds, r, i + 1)
  }

  // The expected log: round by round, and within a round by start order.
  function RoundRobinLog(rounds: seq<int>, r: int, last: int): seq<Entry>
    decreases last - r
  {
    if r > last then [] else Round(rounds, r, 0) + RoundRobinLog(rounds, r + 1, last)
  }

  // A round has each worker that reaches it once, in start order.
  lemma {:induction false} RoundMembers(rounds: seq<int>, r: int, i: nat)
    requires i <= |rounds|
    ensures forall e :: e in Round(rounds, r, i) <==>
                          i <= e.handle < |rounds| && e.round == r && rounds[e.handle] >= r
    ensures forall j, k :: 0 <= j < k < |Round(rounds, r, i)| ==>
                             Round(rounds, r, i)[j].handle < Round(rounds, r, i)[k].handle
    decreases |rounds| - i
  {
    if i < |rounds| {
      RoundMembers(rounds, r, i + 1);
      var rest := Round(rounds, r, i + 1);
      assert forall k :: 0 <= k < |rest| ==> rest[k] in rest;
    }
  }

  // Ordered by round, then by start index.
  predicate Earlier(a: Entry, b: Entry) {
    a.round < b.round || (a.round == b.round && a.handle < b.handle)
  }

  predicate LogSorted(log: seq<Entry>) {
    forall j, k :: 0 <= j < k < |log| ==> Earlier(log[j], log[k])
  }

  // The expected log has every round of every worker once, sorted.
  lemma {:induction false} LogMembers(rounds: seq<int>, r: int, last: int)
    ensures forall e :: e in RoundRobinLog(rounds, r, last) <==>
                          e.handle < |rounds| && r <= e.round <= last && rounds[e.handle] >= e.round
    ensures LogSorted(RoundRobinLog(rounds, r, last))
    decreases last - r
  {
    if r <= last {
      LogMembers(rounds, r + 1, last);
      RoundMembers(rounds, r, 0);
      var now, rest := Round(rounds, r, 0), RoundRobinLog(rounds, r + 1, last);
      assert RoundRobinLog(rounds, r, last) == now + rest;
      hide Round, RoundRobinLog, LogSorted;
      RoundFirst(now, rest, r);
    }
  }

  lemma RoundFirst(now: seq<Entry>, rest: seq<Entry>, r: int)
    requires forall e :: e in now ==> e.round == r
    requires forall e :: e in rest ==> r < e.round
    requires forall j, k :: 0 <= j < k < |now| ==> now[j].handle < now[k].handle
    requires LogSorted(rest)
    ensures LogSorted(now + rest)
  {
    forall k | 0 <= k < |now| ensures now[k].round == r {
      assert now[k] in now;
    }
    forall k | 0 <= k < |rest| ensures r < rest[k].round {
      assert rest[k] in rest;
    }
  }

  // Who is in the queue ahead of (Front) and behind (Back) position i of round r.
  function Front(rounds: seq<int>, r: int, i: nat): seq<Handle>
    requires i <= |rounds|
    decreases |rounds| - i
  {
    if i == |rounds| then []
    else (if r == 1 || rounds[i] >= r - 1 then [i] else []) + Front(rounds, r, i + 1)
  }

  function Back(rounds: seq<int>, r: int, i: nat): seq<Handle>
    requires i <= |rounds|
  {
    if i == 0 then []
    else Back(rounds, r, i - 1) + if rounds[i - 1] >= r then [i - 1] else []
  }

  function TodoAt(rounds: seq<int>, r: int, i: nat): (todo: seq<seq<Op>>)
    ensures |todo| == |rounds| && AllYieldOnly(todo)
  {
    var todo := seq(|rounds|, j requires 0 <= j < |rounds| => Polite(if j < i then r + 1 else r, rounds[j]));
    assert AllYieldOnly(todo) by {
      forall j | 0 <= j < |todo| ensures YieldOnly(todo[j]) {
        PoliteYieldsOnly(if j < i then r + 1 else r, rounds[j]);
      }
    }
    todo
  }

  lemma {:induction false} FrontMembers(rounds: seq<int>, r: int, i: nat)
    requires i <= |rounds|
    ensures forall k :: 0 <= k < |Front(rounds, r, i)| ==> Front(rounds, r, i)[k] < |rounds|
    decreases |rounds| - i
  {
    if i < |rounds| {
      FrontMembers(rounds, r, i + 1);
    }
  }

  lemma {:induction false} BackMembers(rounds: seq<int>, r: int, i: nat)
    requires i <= |rounds|
    ensures forall k :: 0 <= k < |Back(rounds, r, i)| ==> Back(rounds, r, i)[k] < |rounds|
  {
    if i > 0 {
      BackMembers(rounds, r, i - 1);
    }
  }

  lemma {:induction false} BackIsNextFront(rounds: seq<int>, r: int, i: nat)
    requires i <= |rounds| && r >= 1
    ensures Back(rounds, r, |rounds|) == Back(rounds, r, i) + Front(rounds, r + 1, i)
    decreases |rounds| - i
  {
    if i < |rounds| {
      BackIsNextFront(rounds, r, i + 1);
    }
  }

  function RotateAt(rounds: seq<int>, r: int, i: nat): seq<Entry>
    requires i <= |rounds|
  {
    FrontMembers(rounds, r, i);
    BackMembers(rounds, r, i);
    Rotate(Front(rounds, r, i) + Back(rounds, r, i), TodoAt(rounds, r, i))
  }

  // Taking worker i's turn in round r.
  lemma OneTurn(rounds: seq<int>, r: int, i: nat)
    requires i < |rounds| && r >= 1
    ensures RotateAt(rounds, r, i) == (if rounds[i] >= r then [Entry(i, r)] else []) + RotateAt(rounds, r, i + 1)
  {
    FrontMembers(rounds, r, i);
    BackMembers(rounds, r, i);
    FrontMembers(rounds, r, i + 1);
    BackMembers(rounds, r, i + 1);
    hide Polite, RunBurst, YieldOnly;
    var todo, todo' := TodoAt(rounds, r, i), TodoAt(rounds, r, i + 1);
    var queue := Front(rounds, r, i) + Back(rounds, r, i);
    PoliteBurst(i, r, rounds[i]);
    if r == 1 || rounds[i] >= r - 1 {
      assert queue == [i] + (Front(rounds, r, i + 1) + Back(rounds, r, i));
      assert queue[1..] == Front(rounds, r, i + 1) + Back(rounds, r, i);
      var b := RunBurst(i, todo[i]);
      assert todo[i := b.rest] == todo';
      if rounds[i] >= r {
        assert queue[1..] + [i] == Front(rounds, r, i + 1) + Back(rounds, r, i + 1);
      } else {
        assert queue[1..] + [] == Front(rounds, r, i + 1) + Back(rounds, r, i + 1);
      }
    } else {
      assert todo == todo';
      assert queue == Front(rounds, r, i + 1) + Back(rounds, r, i + 1);
    }
  }

  lemma {:induction false} RestOfRound(rounds: seq<int>, r: int, i: nat)
    requires i <= |rounds| && r >= 1
    ensures RotateAt(rounds, r, i) == Round(rounds, r, i) + RotateAt(rounds, r + 1, 0)
    decreases |rounds| - i
  {
    if i < |rounds| {
      OneTurn(rounds, r, i);
      RestOfRound(rounds, r, i + 1);
    } else {
      BackIsNextFront(rounds, r, 0);
      assert TodoAt(rounds, r, i) == TodoAt(rounds, r + 1, 0);
      assert Front(rounds, r, i) + Back(rounds, r, i) == Front(rounds, r + 1, 0) + Back(rounds, r + 1, 0);
    }
  }

  lemma {:induction false} NobodyLeft(rounds: seq<int>, r: int, i: nat)
    requires i <= |rounds| && r > 1 && forall j :: 0 <= j < |rounds| ==> rounds[j] < r - 1
    ensures Front(rounds, r, i) == []
    decreases |rounds| - i
  {
    if i < |rounds| {
      NobodyLeft(rounds, r, i + 1);
    }
  }

  // The queue discipline yields the expected log.
  lemma {:induction false} RotationIsRoundRobin(rounds: seq<int>, r: int, last: int)
    requires 1 <= r <= last + 1 && forall j :: 0 <= j < |rounds| ==> rounds[j] <= last
    ensures RotateAt(rounds, r, 0) == RoundRobinLog(rounds, r, last)
    decreases last - r
  {
    hide Rotate, TodoAt, RotateAt, Round;
    if r <= last {
      RestOfRound(rounds, r, 0);
      RotationIsRoundRobin(rounds, r + 1, last);
    } else {
      RestOfRound(rounds, r, 0);
      EmptyRound(rounds, r, 0);
      NobodyLeft(rounds, r + 1, 0);
      EmptyRotation(rounds, r + 1);
    }
  }

  lemma EmptyRotation(rounds: seq<int>, r: int)
    requires Front(rounds, r, 0) == []
    ensures RotateAt(rounds, r, 0) == []
  {
    assert Back(rounds, r, 0) == [];
  }

  lemma {:induction false} EmptyRound(rounds: seq<int>, r: int, i: nat)
    requires i <= |rounds| && forall j :: 0 <= j < |rounds| ==> rounds[j] < r
    ensures Round(rounds, r, i) == []
    decreases |rounds| - i
  {
    if i < |rounds| {
      EmptyRound(rounds, r, i + 1);
    }
  }

  function Highest(rounds: seq<int>): (m: nat)
    ensures forall j :: 0 <= j < |rounds| ==> rounds[j] <= m
  {
    if rounds == [] then 0
    else
      var k := |rounds| - 1;
      var m := Highest(rounds[..k]);
      assert forall j :: 0 <= j < k ==> rounds[j] == rounds[..k][j];
      if rounds[k] > m then rounds[k] else m
  }

  // Starting worker i makes it take its turn of round 1 on the spot.
  lemma StartedWorker(rounds: seq<int>, i: nat, b: Burst)
    requires i < |rounds| && b == RunBurst(i, TodoAt(rounds, 1, i)[i])
    ensures TodoAt(rounds, 1, i + 1) == TodoAt(rounds, 1, i)[i := b.rest]
    ensures Back(rounds, 1, i + 1) == Back(rounds, 1, i) + if b.yielded then [i] else []
    ensures RotateAt(rounds, 1, i) == b.logged + RotateAt(rounds, 1, i + 1)
  {
    PoliteBurst(i, 1, rounds[i]);
    OneTurn(rounds, 1, i);
    assert TodoAt(rounds, 1, i + 1) == TodoAt(rounds, 1, i)[i := b.rest];
    assert Back(rounds, 1, i) + [] == Back(rounds, 1, i);
  }

  method StartAll(sched: Scheduler, rounds: seq<int>)
    requires sched.Valid() && sched.todo == TodoAt(rounds, 1, 0)
    requires sched.ready == Back(rounds, 1, 0) && sched.timers == [] && sched.log == []
    modifies sched, sched.clock
    ensures sched.Valid() && sched.NobodyForgotten() && AllYieldOnly(sched.todo) && sched.timers == []
    ensures sched.log + Rotate(sched.ready, sched.todo) == RotateAt(rounds, 1, 0)
  {
    hide InQueues, RotateAt, TodoAt, Back, Consistent, HandlesBelow;
    var i := 0;
    while i < |rounds|
      invariant i <= |rounds| && sched.Valid()
      invariant sched.todo == TodoAt(rounds, 1, i) && sched.ready == Back(rounds, 1, i) && sched.timers == []
      invariant sched.log + RotateAt(rounds, 1, i) == RotateAt(rounds, 1, 0)
      invariant forall g :: 0 <= g < i ==> sched.todo[g] == [] || InQueues(sched.ready, sched.timers, g)
    {
      StartedWorker(rounds, i, RunBurst(i, sched.todo[i]));
      ghost var k, start;
      var suspended;
      suspended, k, start := sched.Resume(i);
      i := i + 1;
    }
    AllStarted(rounds);
  }

  lemma AllStarted(rounds: seq<int>)
    ensures forall k :: 0 <= k < |Back(rounds, 1, |rounds|)| ==> Back(rounds, 1, |rounds|)[k] < |rounds|
    ensures RotateAt(rounds, 1, |rounds|) == Rotate(Back(rounds, 1, |rounds|), TodoAt(rounds, 1, |rounds|))
  {
    BackMembers(rounds, 1, |rounds|);
    assert Front(rounds, 1, |rounds|) + Back(rounds, 1, |rounds|) == Back(rounds, 1, |rounds|);
  }

  // Any number of workers with any round counts: started in order, then run,
  // they log strictly by (round, start index).
  method RoundRobin(rounds: seq<int>) returns (log: seq<Entry>)
    ensures forall e :: e in log <==> e.handle < |rounds| && 1 <= e.round <= rounds[e.handle]
    ensures LogSorted(log)
  {
    var clock := new Clock();
    var sched := new Scheduler(TodoAt(rounds, 1, 0), clock);
    StartAll(sched, rounds);
    var _ := sched.Run();
    log := sched.log;
    RotationIsRoundRobin(rounds, 1, Highest(rounds));
    LogMembers(rounds, 1, Highest(rounds));
  }
}

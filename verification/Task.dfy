// task<T>: lazy coroutines that transfer control to one another through
// continuation pointers, against a plain recursive evaluator of the same code.
module Task {
  import opened Clocks
  import opened Options

  // The values a coroutine keeps in its frame: parameters, then every result
  // it has awaited so far.
  type Env = seq<int>

  // What a task delivers: `co_return v` or an exception that left its body.
  datatype Outcome = Value(v: int) | Exception(e: int)

  // What a coroutine may hand itself to the scheduler for.
  datatype Wait = Sleep(duration: int) | Yield

  // A coroutine body. Await creates a fresh child task, awaits it, and goes on
  // with `next` on a value or with `handler` on a rethrown exception; a body
  // without a catch block has a handler that throws again. Pause awaits the
  // scheduler.
  datatype Code =
    | Return(expr: Env -> int)
    | Throw(expr: Env -> int)
    | If(cond: Env -> bool, thn: Code, els: Code)
    | Await(child: Code, args: Env -> Env, next: Code, handler: Code)
    | Pause(wait: Wait, next: Code)

  // ---- the reference meaning: ordinary calls on an ordinary stack, no waiting ----

  ghost function Eval(c: Code, env: Env): Outcome {
    match c
    case Return(expr) => Value(expr(env))
    case Throw(expr) => Exception(expr(env))
    case If(cond, thn, els) => if cond(env) then Eval(thn, env) else Eval(els, env)
    case Pause(_, next) => Eval(next, env)
    case Await(child, args, next, handler) =>
      match Eval(child, args(env))
      case Value(v) => Eval(next, env + [v])
      case Exception(e) => Eval(handler, env + [e])
  }

  // How many child tasks running c creates, at every depth, and how often it
  // comes to a pause, by yielding or else, and for how long it sleeps in all.
  datatype Cost = Cost(spawns: nat, pauses: nat, yieldings: nat, asleep: nat)

  const NOTHING := Cost(0, 0, 0, 0)
  const ONE_CHILD := Cost(1, 0, 0, 0)

  // A sleep of no time is due at once, whatever the clock reads.
  predicate MaySuspend(wait: Wait) {
    wait.Sleep? ==> wait.duration > 0
  }

  function PauseCost(wait: Wait): Cost {
    match wait
    case Yield => Cost(0, 1, 1, 0)
    case Sleep(duration) => if duration > 0 then Cost(0, 1, 0, duration) else NOTHING
  }

  function Plus(a: Cost, b: Cost): Cost {
    Cost(a.spawns + b.spawns, a.pauses + b.pauses, a.yieldings + b.yieldings, a.asleep + b.asleep)
  }

  ghost function Needs(c: Code, env: Env): Cost
    decreases c, 1
  {
    match c
    case Return(_) => NOTHING
    case Throw(_) => NOTHING
    case If(cond, thn, els) => if cond(env) then Needs(thn, env) else Needs(els, env)
    case Await(child, args, next, handler) => Plus(ONE_CHILD, Plus(Needs(child, args(env)), NeedsAfter(c, env)))
    case Pause(wait, next) => Plus(PauseCost(wait), Needs(next, env))
  }

  // ... and how much of it after its first await has been answered.
  ghost function NeedsAfter(c: Code, env: Env): Cost
    requires c.Await?
    decreases c, 0
  {
    match Eval(c.child, c.args(env))
    case Value(v) => Needs(c.next, env + [v])
    case Exception(e) => Needs(c.handler, env + [e])
  }

  ghost function Spawns(c: Code, env: Env): nat {
    Needs(c, env).spawns
  }

  // ---- coroutine frames ----

  // frame_stats
  class FrameStats {
    var liveFrames: int
    var totalAllocations: int

    constructor ()
      ensures liveFrames == 0 && totalAllocations == 0
    {
      liveFrames, totalAllocations := 0, 0;
    }
  }

  datatype Point = AtStart | Running | AtAwait | AtPause | AtEnd

  datatype Result = Empty | Has(outcome: Outcome)

  // A coroutine frame with its promise. `child` is the temporary task that
  // the pending co_await expression owns.
  class Frame {
    var code: Code
    var env: Env
    var point: Point
    var continuation: Frame?
    var result: Result
    var child: Frame?
    var due: int           // in the sleep_awaiter of its last sleep
    var destroyed: bool

    constructor (code: Code, env: Env)
      ensures this.code == code && this.env == env && point == AtStart
      ensures continuation == null && result == Empty && child == null && !destroyed
    {
      this.code, this.env, point := code, env, AtStart;
      continuation, result, child, destroyed, due := null, Empty, null, false, 0;
    }
  }

  method Allocate(code: Code, env: Env, stats: FrameStats) returns (f: Frame)
    modifies stats
    ensures fresh(f) && f.code == code && f.env == env && f.point == AtStart
    ensures f.continuation == null && f.result == Empty && f.child == null && !f.destroyed
    ensures stats.liveFrames == old(stats.liveFrames) + 1
    ensures stats.totalAllocations == old(stats.totalAllocations) + 1
  {
    f := new Frame(code, env);
    stats.liveFrames := stats.liveFrames + 1;
    stats.totalAllocations := stats.totalAllocations + 1;
  }

  method Deallocate(f: Frame, stats: FrameStats)
    requires !f.destroyed
    modifies f`destroyed, stats
    ensures f.destroyed
    ensures stats.liveFrames == old(stats.liveFrames) - 1
    ensures stats.totalAllocations == old(stats.totalAllocations)
  {
    f.destroyed := true;
    stats.liveFrames := stats.liveFrames - 1;
  }

  // ---- the chain of continuations ----

  // f awaits g: f is suspended in an await whose child is g, and g will resume f.
  ghost predicate Awaits(f: Frame, g: Frame)
    reads f, g
  {
    && f.point == AtAwait && f.code.Await? && f.child == g
    && g.continuation == f
  }

  // The live tasks from the root to the running one. Continuation pointers
  // lead from each to the one before it, and nowhere else.
  ghost predicate Chain(c: seq<Frame>)
    reads c
  {
    && c != []
    && c[0].continuation == null
    && (forall i, j :: 0 <= i < j < |c| ==> c[i] != c[j])
    && (forall i :: 0 <= i < |c| ==> !c[i].destroyed && c[i].result == Empty)
    && (forall i :: 0 <= i < |c| - 1 ==> Awaits(c[i], c[i + 1]))
  }

  // Each task on the chain computes what the one awaiting it expects.
  ghost predicate Promises(c: seq<Frame>, expected: Outcome)
    reads c
  {
    && (c != [] ==> Eval(c[0].code, c[0].env) == expected)
    && (forall i :: 0 <= i < |c| - 1 && c[i].code.Await? ==>
          Eval(c[i + 1].code, c[i + 1].env) == Eval(c[i].code.child, c[i].code.args(c[i].env)))
  }

  // f is about to be resumed because the child it awaits has finished.
  ghost predicate ChildDone(f: Frame)
    reads f, f.child
  {
    && f.point == AtAwait && f.code.Await? && f.child != null
    && f.child.point == AtEnd && !f.child.destroyed && f.child.continuation == f
    && f.child.result == Has(Eval(f.code.child, f.code.args(f.env)))
  }

  // What the suspended tasks of c still need once they are resumed.
  ghost function Backlog(c: seq<Frame>): Cost
    reads c
  {
    if c == [] then NOTHING
    else
      var f := c[|c| - 1];
      Plus(Backlog(c[..|c| - 1]), if f.code.Await? then NeedsAfter(f.code, f.env) else NOTHING)
  }

  // What a whole chain still needs; a finished one, nothing.
  ghost function Left(c: seq<Frame>): Cost
    reads c
  {
    if c == [] then NOTHING
    else
      var f := c[|c| - 1];
      Plus(Backlog(c[..|c| - 1]),
           if f.point == AtAwait && f.code.Await? then NeedsAfter(f.code, f.env) else Needs(f.code, f.env))
  }

  // f waits to be started, or to be resumed by the scheduler.
  ghost predicate Idle(f: Frame)
    reads f
  {
    f.child == null && (f.point == AtStart || (f.point == AtPause && f.code.Pause? && MaySuspend(f.code.wait)))
  }

  // The chain's last task is the next to run: newly created, paused, or its child is done.
  ghost predicate Ready(c: seq<Frame>)
    requires c != []
    reads c, c[|c| - 1].child
  {
    var f := c[|c| - 1];
    || Idle(f)
    || (ChildDone(f) && f.child !in c)
  }

  ghost predicate Valid(c: seq<Frame>, expected: Outcome)
    reads c, if c == [] then null else c[|c| - 1].child
  {
    Chain(c) && Promises(c, expected) && Ready(c)
  }

  // awaiter::await_resume: take the child's result and let go of the child.
  method AwaitResume(f: Frame, stats: FrameStats)
    requires ChildDone(f) && f.child != f
    modifies f`code, f`env, f`child, f`point, f.child`destroyed, stats
    ensures f.child == null && f.point == Running
    ensures old(f.child).destroyed
    ensures Eval(f.code, f.env) == old(Eval(f.code, f.env))
    ensures Needs(f.code, f.env) == old(NeedsAfter(f.code, f.env))
    ensures stats.liveFrames == old(stats.liveFrames) - 1
    ensures stats.totalAllocations == old(stats.totalAllocations)
  {
    var outcome := f.child.result.outcome;
    Deallocate(f.child, stats);
    f.child := null;
    f.point := Running;
    match outcome {
      case Value(v) =>
        f.env, f.code := f.env + [v], f.code.next;
      case Exception(e) =>
        f.env, f.code := f.env + [e], f.code.handler;
    }
  }

  // Where a coroutine sleeps, its due time is a clock reading taken on the way
  // plus the duration, and the clock has not reached it.
  ghost predicate AsleepSince(f: Frame, before: int, now: int)
    reads f
  {
    f.code.Pause? && f.code.wait.Sleep? ==> before <= f.due - f.code.wait.duration <= now < f.due
  }

  // From when a task's suspension counts: a sleep from its start.
  ghost function SuspendedSince(f: Frame, now: int): int
    reads f
  {
    if f.code.Pause? && f.code.wait.Sleep? then f.due - f.code.wait.duration else now
  }

  // co_await sched.sleep_for(duration), up to await_ready: a sleep that is
  // already due does not suspend.
  method SleepReady(f: Frame, clock: Clock) returns (ready: bool)
    requires f.code.Pause? && f.code.wait.Sleep?
    modifies f`due, clock
    ensures old(clock.now) <= f.due - f.code.wait.duration <= clock.now
    ensures ready <==> clock.now >= f.due
  {
    var start := clock.Read();
    f.due := start + f.code.wait.duration;
    var t := clock.Read();
    ready := t >= f.due;
  }

  lemma PlainStep(c: Code, env: Env)
    ensures c.If? ==>
              var d := if c.cond(env) then c.thn else c.els;
              Eval(c, env) == Eval(d, env) && Needs(c, env) == Needs(d, env)
    ensures c.Pause? ==>
              && Eval(c, env) == Eval(c.next, env)
              && Needs(c, env) == Plus(PauseCost(c.wait), Needs(c.next, env))
  {}

  // Code between two suspension points.
  method RunToSuspension(f: Frame, clock: Clock)
    modifies f`code, f`due, clock
    ensures !f.code.If?
    ensures Eval(f.code, f.env) == old(Eval(f.code, f.env))
    ensures Needs(f.code, f.env).spawns == old(Needs(f.code, f.env).spawns)
    ensures Needs(f.code, f.env).pauses <= old(Needs(f.code, f.env).pauses)
    ensures Needs(f.code, f.env).yieldings == old(Needs(f.code, f.env).yieldings)
    ensures old(clock.now) <= clock.now && AsleepSince(f, old(clock.now), clock.now)
    ensures SuspendedSince(f, clock.now) + Needs(f.code, f.env).asleep >= old(clock.now + Needs(f.code, f.env).asleep)
  {
    hide Eval, Needs;
    var ready := true;
    while f.code.If? || (ready && f.code.Pause? && f.code.wait.Sleep?)
      invariant Eval(f.code, f.env) == old(Eval(f.code, f.env))
      invariant Needs(f.code, f.env).spawns == old(Needs(f.code, f.env).spawns)
      invariant Needs(f.code, f.env).pauses <= old(Needs(f.code, f.env).pauses)
      invariant Needs(f.code, f.env).yieldings == old(Needs(f.code, f.env).yieldings)
      invariant (if ready then clock.now else SuspendedSince(f, clock.now)) + Needs(f.code, f.env).asleep
                >= old(clock.now + Needs(f.code, f.env).asleep)
      invariant old(clock.now) <= clock.now
      invariant !ready ==> f.code.Pause? && AsleepSince(f, old(clock.now), clock.now)
      decreases f.code, ready
    {
      PlainStep(f.code, f.env);
      if f.code.If? {
        f.code := if f.code.cond(f.env) then f.code.thn else f.code.els;
      } else {
        ready := SleepReady(f, clock);
        if ready {
          f.code := f.code.next;
        }
      }
    }
  }

  // co_await on a fresh child: awaiter::await_suspend records who waits and
  // transfers control to the child.
  method AwaitSuspend(f: Frame, stats: FrameStats) returns (next: Frame)
    requires f.code.Await?
    modifies f`child, f`point, stats
    ensures fresh(next) && Awaits(f, next)
    ensures next.code == f.code.child && next.env == f.code.args(f.env)
    ensures next.point == AtStart && next.result == Empty && next.child == null && !next.destroyed
    ensures stats.liveFrames == old(stats.liveFrames) + 1
    ensures stats.totalAllocations == old(stats.totalAllocations) + 1
  {
    next := Allocate(f.code.child, f.code.args(f.env), stats);
    f.child := next;
    f.point := AtAwait;
    next.continuation := f;
  }

  // co_return or an escaping exception, then final_awaiter::await_suspend:
  // store the outcome and transfer control to whoever awaits, or to nobody.
  method Finish(f: Frame) returns (next: Frame?)
    requires f.code.Return? || f.code.Throw?
    modifies f`result, f`point
    ensures f.point == AtEnd && f.result == Has(Eval(f.code, f.env))
    ensures next == f.continuation
  {
    f.result := Has(if f.code.Return? then Value(f.code.expr(f.env)) else Exception(f.code.expr(f.env)));
    f.point := AtEnd;
    next := f.continuation;
  }

  // The scheduler resumes a paused task.
  method PauseResume(f: Frame)
    requires f.code.Pause? && MaySuspend(f.code.wait)
    modifies f`code
    ensures Eval(f.code, f.env) == old(Eval(f.code, f.env))
    ensures Plus(old(PauseCost(f.code.wait)), Needs(f.code, f.env)) == old(Needs(f.code, f.env))
  {
    f.code := f.code.next;
  }

  // What one transfer of control leaves behind: the child was pushed on the
  // chain, the finished task was taken off it, or the task paused and control
  // went back to whoever resumed it.
  ghost predicate Transferred(before: seq<Frame>, after: seq<Frame>, next: Frame?) {
    && before != []
    && (|| (next != null && after == before + [next])
        || (after == before[..|before| - 1] && next == if after == [] then null else after[|after| - 1])
        || (next == null && after == before))
  }

  // Frames held by the run: the chain, and a finished child its parent has not let go of yet.
  ghost function Held(c: seq<Frame>): nat
    reads c
  {
    if c == [] then 1 else |c| + if c[|c| - 1].point == AtAwait then 1 else 0
  }

  // The chain with its last task executing.
  ghost predicate Executing(c: seq<Frame>, expected: Outcome)
    reads c
  {
    && Chain(c) && Promises(c, expected)
    && c[|c| - 1].point == Running && c[|c| - 1].child == null
  }

  ghost predicate Asleep(f: Frame)
    reads f
  {
    f.point == AtPause && f.code.Pause? && f.code.wait.Sleep?
  }

  ghost function Base(f: Frame, now: int): int
    reads f
  {
    if Asleep(f) then f.due - f.code.wait.duration else now
  }

  // f is not resumed before its time.
  ghost predicate Rested(f: Frame, now: int)
    reads f
  {
    Asleep(f) ==> f.due <= now
  }

  ghost function YieldPaused(f: Frame): nat
    reads f
  {
    if f.point == AtPause && f.code.Pause? && f.code.wait.Yield? then 1 else 0
  }

  // The earliest time at which a chain standing as it does at `now` can be
  // through with everything it still has to sleep.
  ghost function Reach(c: seq<Frame>, now: int): int
    reads c
  {
    (if c == [] then now else Base(c[|c| - 1], now)) + Left(c).asleep
  }

  // What f needs from here on, its child's outcome included.
  ghost function Rest(f: Frame): Cost
    reads f
  {
    if f.point == AtAwait && f.code.Await? then NeedsAfter(f.code, f.env) else Needs(f.code, f.env)
  }

  // Control enters f: its child's outcome is taken, then plain code runs.
  method EnterFrame(f: Frame, stats: FrameStats, clock: Clock)
    requires Idle(f) || (ChildDone(f) && f.child != f)
    modifies f`code, f`env, f`child, f`point, f`due, f.child, stats, clock
    ensures f.point == Running && f.child == null && !f.code.If?
    ensures old(clock.now) <= clock.now && AsleepSince(f, old(clock.now), clock.now)
    ensures Eval(f.code, f.env) == old(Eval(f.code, f.env))
    ensures Needs(f.code, f.env).spawns == old(Rest(f)).spawns
    ensures Needs(f.code, f.env).pauses + (if old(f.point) == AtPause then 1 else 0) <= old(Rest(f)).pauses
    ensures Needs(f.code, f.env).yieldings + old(YieldPaused(f)) == old(Rest(f)).yieldings
    ensures old(Rested(f, clock.now)) ==>
              SuspendedSince(f, clock.now) + Needs(f.code, f.env).asleep >= old(Base(f, clock.now) + Rest(f).asleep)
    ensures stats.totalAllocations == old(stats.totalAllocations)
    ensures stats.liveFrames == old(stats.liveFrames) - if old(f.point) == AtAwait then 1 else 0
  {
    hide Eval, Needs, NeedsAfter;
    if f.point == AtAwait {
      AwaitResume(f, stats);
    } else if f.point == AtPause {
      PauseResume(f);
    }
    f.point := Running;
    RunToSuspension(f, clock);
  }

  method Enter(f: Frame, stats: FrameStats, clock: Clock, ghost c: seq<Frame>, ghost expected: Outcome)
    requires c != [] && Valid(c, expected) && f == c[|c| - 1]
    modifies f, f.child, stats, clock
    ensures old(clock.now) <= clock.now && AsleepSince(f, old(clock.now), clock.now)
    ensures Executing(c, expected) && !f.code.If?
    ensures Backlog(c[..|c| - 1]) == old(Backlog(c[..|c| - 1]))
    ensures (Backlog(c[..|c| - 1]).spawns + Needs(f.code, f.env).spawns) == old(Left(c).spawns)
    ensures Backlog(c[..|c| - 1]).pauses + Needs(f.code, f.env).pauses + (if old(f.point) == AtPause then 1 else 0)
            <= old(Left(c).pauses)
    ensures Backlog(c[..|c| - 1]).yieldings + Needs(f.code, f.env).yieldings + old(YieldPaused(f))
            == old(Left(c).yieldings)
    ensures old(Rested(f, clock.now)) ==>
              SuspendedSince(f, clock.now) + Backlog(c[..|c| - 1]).asleep + Needs(f.code, f.env).asleep
              >= old(Reach(c, clock.now))
    ensures stats.totalAllocations == old(stats.totalAllocations)
    ensures stats.liveFrames - |c| == old(stats.liveFrames - Held(c))
    ensures f.continuation == old(f.continuation)
  {
    hide Eval, Needs, NeedsAfter, AsleepSince, Backlog;
    ghost var below := c[..|c| - 1];
    assert f !in below;
    assert Left(c) == Plus(Backlog(below), Rest(f));
    EnterFrame(f, stats, clock);
  }

  lemma Pushed(c: seq<Frame>, g: Frame, expected: Outcome)
    requires Chain(c) && Promises(c, expected) && g !in c && Awaits(c[|c| - 1], g)
    requires g.point == AtStart && g.child == null && g.result == Empty && !g.destroyed
    requires g.code == c[|c| - 1].code.child && g.env == c[|c| - 1].code.args(c[|c| - 1].env)
    ensures Valid(c + [g], expected)
    ensures Left(c + [g]) == Plus(Backlog(c), Needs(g.code, g.env))
  {
    assert (c + [g])[..|c|] == c;
  }

  lemma Popped(c: seq<Frame>, f: Frame, expected: Outcome)
    requires c != [] && f !in c && Chain(c) && Promises(c, expected)
    requires Awaits(c[|c| - 1], f) && f.point == AtEnd && !f.destroyed
    requires f.result == Has(Eval(c[|c| - 1].code.child, c[|c| - 1].code.args(c[|c| - 1].env)))
    ensures Valid(c, expected)
    ensures Left(c) == Backlog(c)
  {}

  // The chain below an executing task, seen on its own.
  lemma Below(c: seq<Frame>, expected: Outcome)
    requires Executing(c, expected)
    ensures var below := c[..|c| - 1];
            && c[|c| - 1] !in below
            && (below != [] ==> Chain(below) && Promises(below, expected) && Awaits(below[|below| - 1], c[|c| - 1]))
            && (below == [] ==> c[|c| - 1].continuation == null && Eval(c[|c| - 1].code, c[|c| - 1].env) == expected)
            && (below != [] ==> Eval(c[|c| - 1].code, c[|c| - 1].env)
                                == Eval(below[|below| - 1].code.child,
                                        below[|below| - 1].code.args(below[|below| - 1].env)))
  {
    if |c| > 1 {
      assert Awaits(c[|c| - 2], c[|c| - 1]);
    }
  }

  lemma AwakeReach(c: seq<Frame>)
    requires c != [] ==> c[|c| - 1].point != AtPause
    ensures forall now :: Reach(c, now) == now + Left(c).asleep
  {
    hide Left;
  }

  method SuspendIn(f: Frame, stats: FrameStats, ghost c: seq<Frame>, ghost expected: Outcome)
    returns (next: Frame, ghost c': seq<Frame>)
    requires c != [] && Executing(c, expected) && f == c[|c| - 1] && f.code.Await?
    modifies f, stats
    ensures fresh(next) && next.child == null && c' == c + [next]
    ensures Valid(c', expected) && next.point == AtStart
    ensures forall now :: Reach(c', now) == now + Left(c').asleep
    ensures Plus(Left(c'), ONE_CHILD) == old(Plus(Backlog(c[..|c| - 1]), Needs(f.code, f.env)))
    ensures stats.totalAllocations == old(stats.totalAllocations) + 1
    ensures stats.liveFrames - Held(c') == old(stats.liveFrames) - |c|
  {
    hide Eval, NeedsAfter, Ready, Left, Valid, Reach;
    ghost var below := c[..|c| - 1];
    assert f !in below;
    next := AwaitSuspend(f, stats);
    c' := c + [next];
    assert Backlog(c) == Plus(Backlog(below), NeedsAfter(f.code, f.env));
    Pushed(c, next, expected);
    AwakeReach(c');
  }

  method FinishIn(f: Frame, ghost c: seq<Frame>, ghost expected: Outcome)
    returns (next: Frame?, ghost c': seq<Frame>)
    requires c != [] && Executing(c, expected) && f == c[|c| - 1] && (f.code.Return? || f.code.Throw?)
    modifies f
    ensures c' == c[..|c| - 1]
    ensures f.point == AtEnd && f.child == null && !f.destroyed
    ensures c' == [] ==> next == null && f.result == Has(expected)
    ensures c' != [] ==> next == c'[|c'| - 1] && next.child == f && Valid(c', expected)
    ensures Left(c') == old(Backlog(c[..|c| - 1]))
    ensures Held(c') == |c|
    ensures c' != [] ==> next.point == AtAwait
    ensures forall now :: Reach(c', now) == now + Left(c').asleep
  {
    Below(c, expected);
    next := Finish(f);
    c' := c[..|c| - 1];
    if c' != [] {
      Popped(c', f, expected);
    }
  }

  // A task hands itself to the scheduler.
  method PauseIn(f: Frame, ghost c: seq<Frame>, ghost expected: Outcome)
    requires c != [] && Executing(c, expected) && f == c[|c| - 1] && f.code.Pause? && MaySuspend(f.code.wait)
    modifies f`point
    ensures Valid(c, expected) && f.point == AtPause && Idle(f)
    ensures forall now :: Reach(c, now) == SuspendedSince(f, now) + Left(c).asleep
    ensures Left(c) == old(Plus(Backlog(c[..|c| - 1]), Needs(f.code, f.env)))
  {
    f.point := AtPause;
  }

  // Runs f from where control entered it to where control leaves it.
  method Slice(f: Frame, stats: FrameStats, clock: Clock, ghost c: seq<Frame>, ghost expected: Outcome)
    returns (next: Frame?, ghost c': seq<Frame>)
    requires c != [] && Valid(c, expected) && f == c[|c| - 1]
    modifies f, f.child, stats, clock
    ensures old(clock.now) <= clock.now
    ensures Transferred(c, c', next)
    ensures next != null ==> next.point != AtPause && next.child == if |c'| > |c| then null else f
    ensures forall g :: g in c' ==> g in c || fresh(g)
    ensures c' != [] ==> Valid(c', expected)
    ensures c' == [] ==> f.point == AtEnd && f.result == Has(expected) && f.child == null && !f.destroyed
    ensures c' == c ==> f.point == AtPause && Idle(f) && AsleepSince(f, old(clock.now), clock.now)
    ensures stats.totalAllocations + Left(c').spawns == old(stats.totalAllocations + Left(c).spawns)
    ensures stats.totalAllocations == old(stats.totalAllocations) + if |c'| > |c| then 1 else 0
    ensures Left(c').pauses + (if old(f.point) == AtPause then 1 else 0) <= old(Left(c).pauses)
    ensures Left(c').yieldings + old(YieldPaused(f)) == old(Left(c).yieldings)
    ensures old(Rested(f, clock.now)) ==> Reach(c', clock.now) >= old(Reach(c, clock.now))
    ensures stats.liveFrames - Held(c') == old(stats.liveFrames - Held(c))
  {
    hide Eval, Needs, NeedsAfter, Reach, Backlog, Left, Valid, Executing, Promises, Chain;
    Enter(f, stats, clock, c, expected);
    if f.code.Await? {
      next, c' := SuspendIn(f, stats, c, expected);
    } else if f.code.Pause? {
      PauseIn(f, c, expected);
      next, c' := null, c;
    } else {
      NeedsAtEnds(f.code, f.env);
      next, c' := FinishIn(f, c, expected);
    }
  }

  lemma StartChain(root: Frame)
    requires Unstarted(root)
    ensures Valid([root], Eval(root.code, root.env))
    ensures Left([root]) == Needs(root.code, root.env) && Held([root]) == 1
  {
    hide Eval, Needs, NeedsAfter;
    assert [root][..0] == [];
  }

  lemma RootIsFirstOnly(c: seq<Frame>, expected: Outcome)
    requires c != [] && Valid(c, expected)
    ensures |c| > 1 ==> c[|c| - 1] != c[0]
  {}

  // n continuation pointers up from f.
  ghost function WaiterAbove(f: Frame?, n: nat): Frame?
    reads *
  {
    if f == null || n == 0 then f else WaiterAbove(f.continuation, n - 1)
  }

  // From any live task the continuation pointers lead through the tasks that
  // wait for it, each once, to the root, and from there to nobody.
  lemma {:induction false} WaitersLeadToRoot(c: seq<Frame>, i: nat, n: nat)
    requires Chain(c) && i < |c|
    ensures n <= i ==> WaiterAbove(c[i], n) == c[i - n]
    ensures n > i ==> WaiterAbove(c[i], n) == null
    decreases n
  {
    if n > 0 && i > 0 {
      assert Awaits(c[i - 1], c[i]);
      WaitersLeadToRoot(c, i - 1, n - 1);
    }
  }

  // The root of a chain has done what was asked of it and holds nothing any more.
  ghost predicate Completed(root: Frame, expected: Outcome)
    reads root
  {
    root.point == AtEnd && root.result == Has(expected) && root.child == null && !root.destroyed
  }

  lemma NeedsAtEnds(c: Code, env: Env)
    ensures c.Return? || c.Throw? ==> Needs(c, env) == NOTHING
    ensures c.Pause? && MaySuspend(c.wait) ==> Needs(c, env).pauses > 0
  {
    hide Eval;
  }

  // A chain that ends in a paused task has a pause to its account, and its root is not done.
  lemma PauseIsAhead(c: seq<Frame>, expected: Outcome)
    requires c != [] && Valid(c, expected) && c[|c| - 1].point == AtPause
    ensures Idle(c[|c| - 1]) && Left(c).pauses > 0 && c[0].point != AtEnd
  {
    hide Eval, Needs, NeedsAfter;
    NeedsAtEnds(c[|c| - 1].code, c[|c| - 1].env);
    if |c| > 1 {
      assert Awaits(c[0], c[1]);
    }
  }

  // Transfers of control until the root of c is done, pauses apart.
  ghost function Distance(c: seq<Frame>): nat
    reads c
  {
    2 * Left(c).spawns + |c|
  }

  // coroutine_handle::resume on a task that waits to be started or resumed:
  // control moves along its chain until the root is done or a task pauses,
  // and then comes back to the caller.
  method Resume(f: Frame, stats: FrameStats, clock: Clock, ghost c: seq<Frame>, ghost expected: Outcome)
    returns (transfers: nat, paused: Frame?, ghost c': seq<Frame>)
    requires c != [] && Valid(c, expected) && f == c[|c| - 1] && Idle(f)
    modifies c, stats, clock
    ensures old(clock.now) <= clock.now
    ensures paused != null ==> AsleepSince(paused, old(clock.now), clock.now)
    ensures c' == [] ==> paused == null && Completed(c[0], expected)
    ensures c' != [] ==> Valid(c', expected) && c'[0] == c[0]
                         && paused == c'[|c'| - 1] && paused.point == AtPause && Idle(paused)
    ensures forall g :: g in c' ==> g in c || fresh(g)
    ensures transfers + Distance(c') == old(Distance(c)) + if c' == [] then 0 else 1
    ensures Left(c').pauses + (if old(f.point) == AtPause then 1 else 0) <= old(Left(c).pauses)
    ensures Left(c').yieldings + old(YieldPaused(f)) == old(Left(c).yieldings)
    ensures old(Rested(f, clock.now)) ==> Reach(c', clock.now) >= old(Reach(c, clock.now))
    ensures stats.totalAllocations + Left(c').spawns == old(stats.totalAllocations + Left(c).spawns)
    ensures stats.liveFrames - Held(c') == old(stats.liveFrames - Held(c))
  {
    hide Valid, Left, Eval;
    var current: Frame? := f;
    transfers, paused, c' := 0, null, c;
    while current != null
      invariant old(clock.now) <= clock.now
      invariant paused != null ==> AsleepSince(paused, old(clock.now), clock.now)
      invariant c' != [] ==> c'[0] == c[0] && Valid(c', expected)
      invariant current == null <==> c' == [] || paused != null
      invariant current != null ==>
                  current == c'[|c'| - 1] && (current.child == null || fresh(current.child) || current.child in c)
      invariant paused != null ==> c' != [] && paused == c'[|c'| - 1] && paused.point == AtPause && Idle(paused)
      invariant forall g :: g in c' ==> g in c || fresh(g)
      invariant c' == [] ==> Completed(c[0], expected)
      invariant transfers + Distance(c') == old(Distance(c)) + if paused == null then 0 else 1
      invariant transfers == 0 ==> current == f && f.point == old(f.point)
      invariant Left(c').pauses + (if transfers > 0 && old(f.point) == AtPause then 1 else 0) <= old(Left(c).pauses)
      invariant transfers == 0 ==>
                  c' == c && f.code == old(f.code) && f.due == old(f.due) && clock.now == old(clock.now)
      invariant transfers > 0 && current != null ==> current.point != AtPause
      invariant Left(c').yieldings + (if transfers > 0 then old(YieldPaused(f)) else 0) == old(Left(c).yieldings)
      invariant old(Rested(f, clock.now)) ==> Reach(c', clock.now) >= old(Reach(c, clock.now))
      invariant stats.totalAllocations + Left(c').spawns == old(stats.totalAllocations + Left(c).spawns)
      invariant stats.liveFrames - Held(c') == old(stats.liveFrames - Held(c))
      decreases if current == null then 0 else Distance(c')
    {
      ghost var before := c';
      assert current in before;
      RootIsFirstOnly(before, expected);
      var next: Frame?;
      next, c' := Slice(current, stats, clock, c', expected);
      if next == null && current.point == AtPause {
        paused := current;
      }
      current := next;
      transfers := transfers + 1;
    }
  }

  // ---- task<T>, the owner of one frame ----

  class Task {
    var handle: Frame?

    constructor (code: Code, env: Env, stats: FrameStats)
      modifies stats
      ensures fresh(handle) && Unstarted(handle) && handle.code == code && handle.env == env
      ensures stats.liveFrames == old(stats.liveFrames) + 1
      ensures stats.totalAllocations == old(stats.totalAllocations) + 1
    {
      var f := Allocate(code, env, stats);
      handle := f;
    }

    predicate Done()
      reads this, handle
    {
      handle == null || handle.point == AtEnd
    }

    // A task that is running or suspended must not be started again. What it
    // leaves is a finished task, or one that waits for the scheduler at the end
    // of its chain of awaits.
    method Start(stats: FrameStats, clock: Clock) returns (transfers: nat, paused: Frame?, ghost c: seq<Frame>)
      requires Done() || Unstarted(handle)
      modifies handle, stats, clock
      ensures old(Done()) ==> transfers == 0 && paused == null && c == []
                              && stats.liveFrames == old(stats.liveFrames)
                              && stats.totalAllocations == old(stats.totalAllocations)
                              && (handle != null ==> unchanged(handle))
      ensures !old(Done()) && c == [] ==>
                && paused == null && Completed(handle, old(Eval(handle.code, handle.env)))
                && transfers == 1 + 2 * old(Spawns(handle.code, handle.env))
                && stats.totalAllocations == old(stats.totalAllocations + Spawns(handle.code, handle.env))
                && stats.liveFrames == old(stats.liveFrames)
                && clock.now >= old(clock.now + Needs(handle.code, handle.env).asleep)
                && old(Needs(handle.code, handle.env)).yieldings == 0
      ensures c != [] ==>
                && Valid(c, old(Eval(handle.code, handle.env))) && c[0] == handle
                && paused == c[|c| - 1] && paused.point == AtPause
                && old(Needs(handle.code, handle.env)).pauses > 0
      ensures Done() <==> c == []
    {
      hide Eval, Needs, Valid;
      transfers, paused, c := 0, null, [];
      if handle != null && handle.point != AtEnd {
        StartChain(handle);
        transfers, paused, c := Resume(handle, stats, clock, [handle], Eval(handle.code, handle.env));
        if c != [] {
          PauseIsAhead(c, old(Eval(handle.code, handle.env)));
        }
      }
    }

    method Destroy(stats: FrameStats)
      requires handle != null ==> !handle.destroyed
      modifies this, handle, stats
      ensures handle == null
      ensures old(handle) != null ==> old(handle).destroyed
      ensures stats.liveFrames == old(stats.liveFrames) - if old(handle) != null then 1 else 0
      ensures stats.totalAllocations == old(stats.totalAllocations)
    {
      if handle != null {
        Deallocate(handle, stats);
        handle := null;
      }
    }
  }

  ghost predicate Unstarted(f: Frame?)
    reads f
  {
    && f != null && f.point == AtStart && f.continuation == null && f.result == Empty
    && f.child == null && !f.destroyed
  }

  // Runs a task to its end on the caller's stack, hands out what it produced
  // and releases its frame. Whatever the tree of awaits, the outcome is the
  // one ordinary calls would give, and no frame is left. A task that is done
  // already gives its stored outcome; None is the failed assertion that the
  // task waits for the scheduler, which a tree without pauses never meets.
  method SyncWait(pending: Task, stats: FrameStats, clock: Clock) returns (r: Option<Outcome>)
    requires pending.handle != null && !pending.handle.destroyed
    requires pending.handle.point == AtEnd ==> pending.handle.result.Has?
    requires pending.handle.point != AtEnd ==> Unstarted(pending.handle)
    modifies pending, pending.handle, stats, clock
    ensures old(pending.handle.point) == AtEnd ==>
              && r == Some(old(pending.handle.result.outcome))
              && stats.totalAllocations == old(stats.totalAllocations)
    ensures old(pending.handle.point) != AtEnd && r.Some? ==>
              && r.value == old(Eval(pending.handle.code, pending.handle.env))
              && stats.totalAllocations == old(stats.totalAllocations + Spawns(pending.handle.code, pending.handle.env))
              && clock.now >= old(clock.now + Needs(pending.handle.code, pending.handle.env).asleep)
              && old(Needs(pending.handle.code, pending.handle.env)).yieldings == 0
    ensures r.Some? ==>
              && pending.handle == null && old(pending.handle).destroyed
              && stats.liveFrames == old(stats.liveFrames) - 1
    ensures r.None? ==> !pending.Done() && old(Needs(pending.handle.code, pending.handle.env)).pauses > 0
  {
    var _, _, _ := pending.Start(stats, clock);
    if !pending.Done() {
      return None;
    }
    r := Some(pending.handle.result.outcome);
    pending.Destroy(stats);
  }

  // ---- await chains of any depth ----

  // A body without a catch block: what the await rethrows leaves the body.
  function NoCatch(): Code {
    Throw((env: Env) => if env == [] then 0 else env[|env| - 1])
  }

  // n tasks that each await the next one and return what it returned.
  function Nest(n: nat, leaf: Code): Code {
    if n == 0 then leaf
    else Passing(Nest(n - 1, leaf))
  }

  // A value or an exception comes out of n awaits as it went in. With Resume's
  // contract, a chain of depth n takes 1 + 2 * n transfers for its own tasks.
  lemma {:induction false} DeepChain(n: nat, leaf: Code, env: Env)
    ensures Eval(Nest(n, leaf), env) == Eval(leaf, env)
    ensures Spawns(Nest(n, leaf), env) == n + Spawns(leaf, env)
  {
    hide Eval, Needs, Passing;
    if n > 0 {
      DeepChain(n - 1, leaf, env);
      PassOn(Nest(n - 1, leaf), env);
      PassOnNeeds(Nest(n - 1, leaf), env);
    }
  }

  // A task that awaits another and returns or rethrows what it got.
  function Passing(child: Code): Code {
    Await(child, (env: Env) => env, GiveBack(), NoCatch())
  }

  function GiveBack(): Code {
    Return((env: Env) => if env == [] then 0 else env[|env| - 1])
  }

  lemma Ends(env: Env, x: int)
    ensures Eval(GiveBack(), env + [x]) == Value(x) && Needs(GiveBack(), env + [x]) == NOTHING
    ensures Eval(NoCatch(), env + [x]) == Exception(x) && Needs(NoCatch(), env + [x]) == NOTHING
  {}

  lemma PassOn(child: Code, env: Env)
    ensures Eval(Passing(child), env) == Eval(child, env)
    ensures NeedsAfter(Passing(child), env) == NOTHING
  {
    assert Passing(child).args(env) == env;
    match Eval(child, env) {
      case Value(v) => Ends(env, v);
      case Exception(e) => Ends(env, e);
    }
    hide GiveBack, NoCatch, Needs;
  }

  lemma PassingShape(child: Code, env: Env)
    ensures Passing(child).Await? && Passing(child).child == child && Passing(child).args(env) == env
  {}

  lemma AwaitNeeds(c: Code, env: Env)
    requires c.Await?
    ensures Needs(c, env) == Plus(ONE_CHILD, Plus(Needs(c.child, c.args(env)), NeedsAfter(c, env)))
  {}

  lemma PassOnNeeds(child: Code, env: Env)
    ensures Needs(Passing(child), env) == Plus(ONE_CHILD, Needs(child, env))
  {
    hide Eval, NeedsAfter, GiveBack, NoCatch, Needs, Passing;
    PassingShape(child, env);
    PassOn(child, env);
    AwaitNeeds(Passing(child), env);
  }

  // ---- what the statements of a body mean ----

  // An exception that comes out of an awaited chain of any depth enters the
  // catch block, which sees everything the frame holds, and the exception.
  lemma CatchRuns(n: nat, thrown: Env -> int, args: Env -> Env, next: Code, handler: Code, env: Env)
    ensures Eval(Await(Nest(n, Throw(thrown)), args, next, handler), env) ==
            Eval(handler, env + [thrown(args(env))])
  {
    DeepChain(n, Throw(thrown), args(env));
    hide Nest;
  }

  // A value goes on after the await, beside everything the frame holds.
  lemma NextRuns(n: nat, result: Env -> int, args: Env -> Env, next: Code, handler: Code, env: Env)
    ensures Eval(Await(Nest(n, Return(result)), args, next, handler), env) ==
            Eval(next, env + [result(args(env))])
  {
    DeepChain(n, Return(result), args(env));
    hide Nest;
  }

  lemma PlainStatements(cond: Env -> bool, f: Env -> int, g: Env -> int, wait: Wait, env: Env)
    ensures Eval(Return(f), env) == Value(f(env)) && Eval(Throw(f), env) == Exception(f(env))
    ensures Eval(If(cond, Return(f), Return(g)), env) == Value(if cond(env) then f(env) else g(env))
    ensures Eval(Pause(wait, Return(f)), env) == Value(f(env))
  {
    hide Needs, NeedsAfter;
    PlainStep(If(cond, Return(f), Return(g)), env);
    PlainStep(Pause(wait, Return(f)), env);
  }

  // A yield always suspends, a sleep only for as long as it lasts.
  lemma PauseNeeds(d: int, next: Code, env: Env)
    ensures Needs(Pause(Yield, next), env) == Plus(Cost(0, 1, 1, 0), Needs(next, env))
    ensures d > 0 ==> Needs(Pause(Sleep(d), next), env) == Plus(Cost(0, 1, 0, d), Needs(next, env))
    ensures d <= 0 ==> Needs(Pause(Sleep(d), next), env) == Needs(next, env)
  {
    hide *;
    PauseStep(Yield, next, env);
    PauseStep(Sleep(d), next, env);
    PauseCosts(d);
    NothingMore(Needs(next, env));
  }

  lemma PauseStep(wait: Wait, next: Code, env: Env)
    ensures Needs(Pause(wait, next), env) == Plus(PauseCost(wait), Needs(next, env))
  {}

  lemma PauseCosts(d: int)
    ensures PauseCost(Yield) == Cost(0, 1, 1, 0)
    ensures PauseCost(Sleep(d)) == if d > 0 then Cost(0, 1, 0, d) else NOTHING
  {}

  lemma NothingMore(c: Cost)
    ensures Plus(NOTHING, c) == c
  {}

  // ---- a body with catch blocks: attempts, one after another ----

  function Attempt(o: Outcome): Code {
    match o
    case Value(v) => Return((env: Env) => v)
    case Exception(e) => Throw((env: Env) => e)
  }

  // Awaits one attempt; if it throws, the catch block awaits the next.
  function Retry(attempts: seq<Outcome>): Code
    requires attempts != []
  {
    Await(Attempt(attempts[0]), (env: Env) => env, GiveBack(),
          if |attempts| == 1 then NoCatch() else Retry(attempts[1..]))
  }

  lemma AttemptGives(o: Outcome, env: Env)
    ensures Eval(Attempt(o), env) == o
  {}

  // The first attempt that succeeds decides, or the last one if none does.
  lemma {:induction false} RetryGives(attempts: seq<Outcome>, k: nat, env: Env)
    requires k < |attempts| && forall j :: 0 <= j < k ==> attempts[j].Exception?
    requires attempts[k].Value? || k == |attempts| - 1
    ensures Eval(Retry(attempts), env) == attempts[k]
    decreases k
  {
    var o := attempts[0];
    AttemptGives(o, env);
    var rest := if |attempts| == 1 then NoCatch() else Retry(attempts[1..]);
    assert Eval(Retry(attempts), env) ==
           match Eval(Attempt(o), env)
           case Value(v) => Eval(GiveBack(), env + [v])
           case Exception(e) => Eval(rest, env + [e]);
    hide Eval, Retry, Attempt, GiveBack, NoCatch;
    if o.Value? {
      Ends(env, o.v);
    } else if |attempts| == 1 {
      Ends(env, o.e);
    } else {
      RetryGives(attempts[1..], k - 1, env + [o.e]);
    }
  }

  // The same, run by the coroutine machine.
  method RetryNow(attempts: seq<Outcome>, ghost k: nat, stats: FrameStats, clock: Clock) returns (outcome: Outcome)
    requires k < |attempts| && forall j :: 0 <= j < k ==> attempts[j].Exception?
    requires attempts[k].Value? || k == |attempts| - 1
    modifies stats, clock
    ensures outcome == attempts[k] && stats.liveFrames == old(stats.liveFrames)
  {
    RetryGives(attempts, k, []);
    RetryNeverPauses(attempts, []);
    hide Eval, Needs, Retry;
    var pending := new Task(Retry(attempts), [], stats);
    var r := SyncWait(pending, stats, clock);
    outcome := r.value;
  }

  lemma {:induction false} RetryNeverPauses(attempts: seq<Outcome>, env: Env)
    requires attempts != []
    ensures Needs(Retry(attempts), env).pauses == 0
    decreases |attempts|
  {
    var o := attempts[0];
    AttemptGives(o, env);
    AwaitNeeds(Retry(attempts), env);
    assert Retry(attempts).args(env) == env;
    assert Needs(Attempt(o), env).pauses == 0;
    if o.Value? {
      Ends(env, o.v);
    } else if |attempts| == 1 {
      Ends(env, o.e);
    } else {
      RetryNeverPauses(attempts[1..], env + [o.e]);
    }
  }

  // examples::async_sum: two awaited children in turn, then the sum.
  function AsyncValue(): Code {
    Return((env: Env) => if env == [] then 0 else env[0])
  }

  function AsyncSum(): Code {
    Await(AsyncValue(), (env: Env) => if |env| < 1 then [] else [env[0]],
          Await(AsyncValue(), (env: Env) => if |env| < 2 then [] else [env[1]],
                Return((env: Env) => if |env| < 4 then 0 else env[2] + env[3]), NoCatch()), NoCatch())
  }

  lemma AsyncSumAdds(lhs: int, rhs: int)
    ensures Eval(AsyncSum(), [lhs, rhs]) == Value(lhs + rhs)
    ensures Spawns(AsyncSum(), [lhs, rhs]) == 2
  {
    var second := AsyncSum().next;
    assert Eval(AsyncValue(), [lhs]) == Value(lhs);
    assert Eval(AsyncValue(), [rhs]) == Value(rhs);
    assert AsyncSum().args([lhs, rhs]) == [lhs];
    var env := [lhs, rhs] + [lhs];
    assert second.args(env) == [rhs];
    assert Eval(second, env) == Eval(second.next, env + [rhs]);
  }
}

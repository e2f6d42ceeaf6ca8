// MulticastDelegate: listeners that may add, remove, expire and broadcast
// again while a broadcast is going on.
module Delegates {

  // An object's address; 0 is nullptr.
  type Address = nat

  // The control block a weak_ptr watches. A token, once expired, stays so,
  // even if a new object reuses the address.
  type Token = nat

  // What a slot holds. Static and lambda bindings have no owner, raw ones have
  // an owner, shared-pointer and weak-lambda ones also watch a token.
  datatype Delegate = Delegate(invocation: bool, usesWeak: bool, weak: Token, owner: Address)

  datatype Slot = Slot(handle: nat, delegate: Delegate)

  // What a listener may do before it returns. A broadcast comes with what the
  // listener at each snapshot position does if it is called, so a script is
  // any finite execution of any listeners.
  datatype Action =
    | Add(delegate: Delegate)
    | Remove(handle: nat)
    | RemoveAll(target: Address)
    | Clear
    | Expire(token: Token)
    | AddElsewhere                 // another multicast delegate takes a handle
    | Broadcast(turns: seq<Script>)

  datatype Script = Script(actions: seq<Action>)

  // One invocation, and how many broadcasts it was nested in.
  datatype Call = Call(depth: nat, handle: nat)

  datatype State = State(slots: seq<Slot>, counter: nat, expired: set<Token>, depth: nat, calls: seq<Call>)

  // ---- queries ----

  predicate IsBound(d: Delegate, expired: set<Token>) {
    d.invocation && (!d.usesWeak || d.weak !in expired)
  }

  predicate IsBoundToObject(d: Delegate, target: Address, expired: set<Token>) {
    target != 0 && d.owner == target && IsBound(d, expired)
  }

  predicate Contains(slots: seq<Slot>, handle: nat) {
    exists i :: 0 <= i < |slots| && slots[i].handle == handle
  }

  // ---- what the operations mean ----

  function WithoutHandle(slots: seq<Slot>, handle: nat): seq<Slot> {
    if slots == [] then []
    else if slots[0].handle == handle then slots[1..]
    else [slots[0]] + WithoutHandle(slots[1..], handle)
  }

  function WithoutObject(slots: seq<Slot>, target: Address, expired: set<Token>): seq<Slot> {
    if slots == [] then []
    else
      var k := |slots| - 1;
      WithoutObject(slots[..k], target, expired)
      + if IsBoundToObject(slots[k].delegate, target, expired) then [] else [slots[k]]
  }

  function OnlyBound(slots: seq<Slot>, expired: set<Token>): seq<Slot> {
    if slots == [] then []
    else
      var k := |slots| - 1;
      OnlyBound(slots[..k], expired) + if IsBound(slots[k].delegate, expired) then [slots[k]] else []
  }

  function Perform(s: State, a: Action): State
    decreases a, 1
  {
    match a
    case Add(d) => s.(slots := s.slots + [Slot(s.counter, d)], counter := s.counter + 1)
    case Remove(h) => s.(slots := WithoutHandle(s.slots, h))
    case RemoveAll(target) => s.(slots := WithoutObject(s.slots, target, s.expired))
    case Clear => s.(slots := [])
    case Expire(t) => s.(expired := s.expired + {t})
    case AddElsewhere => s.(counter := s.counter + 1)
    case Broadcast(turns) => Broadcasted(s, turns)
  }

  function PerformAll(s: State, actions: seq<Action>): State
    decreases actions, 0
  {
    if actions == [] then s
    else
      var k := |actions| - 1;
      Perform(PerformAll(s, actions[..k]), actions[k])
  }

  // A snapshot slot is called if its handle is still registered and its target still lives.
  predicate Due(s: State, slot: Slot) {
    Contains(s.slots, slot.handle) && IsBound(slot.delegate, s.expired)
  }

  // The state when the loop over the snapshot reaches position i.
  function AtTurn(s: State, snapshot: seq<Slot>, turns: seq<Script>, i: nat): State
    requires i <= |snapshot|
    decreases turns, i
  {
    if i == 0 then s
    else
      var before := AtTurn(s, snapshot, turns, i - 1);
      if !Due(before, snapshot[i - 1]) then before
      else
        var called := before.(calls := before.calls + [Call(before.depth, snapshot[i - 1].handle)]);
        if i - 1 < |turns| then PerformAll(called, turns[i - 1].actions) else called
  }

  function Broadcasted(s: State, turns: seq<Script>): State
    decreases turns, |s.slots| + 1
  {
    var visited := AtTurn(s.(depth := s.depth + 1), s.slots, turns, |s.slots|);
    visited.(slots := OnlyBound(visited.slots, visited.expired), depth := s.depth)
  }

  // ---- what every operation keeps ----

  predicate Ascending(slots: seq<Slot>) {
    forall i, j :: 0 <= i < j < |slots| ==> slots[i].handle < slots[j].handle
  }

  predicate Valid(s: State) {
    && s.counter >= 1
    && Ascending(s.slots)
    && forall i :: 0 <= i < |s.slots| ==> 1 <= s.slots[i].handle < s.counter
  }

  // Handles are never reused, a removed slot never returns, and a dead target stays dead.
  predicate Later(s: State, t: State) {
    && t.counter >= s.counter
    && s.expired <= t.expired
    && s.calls <= t.calls
    && t.depth == s.depth
    && forall i :: 0 <= i < |t.slots| && t.slots[i].handle < s.counter ==> t.slots[i] in s.slots
  }

  predicate NewCallsFrom(s: State, t: State, depth: nat) {
    s.calls <= t.calls && forall k :: |s.calls| <= k < |t.calls| ==> t.calls[k].depth >= depth
  }

  lemma {:induction false} WithoutHandleMembers(slots: seq<Slot>, handle: nat)
    requires Ascending(slots)
    ensures Ascending(WithoutHandle(slots, handle))
    ensures forall x :: x in WithoutHandle(slots, handle) <==> x in slots && x.handle != handle
  {
    if slots != [] {
      var rest := slots[1..];
      WithoutHandleMembers(rest, handle);
      assert slots == [slots[0]] + rest;
      if slots[0].handle != handle {
        var out := WithoutHandle(rest, handle);
        forall j | 0 <= j < |out| ensures slots[0].handle < out[j].handle {
          assert out[j] in rest;
        }
      }
    }
  }

  lemma {:induction false} WithoutObjectMembers(slots: seq<Slot>, target: Address, expired: set<Token>)
    requires Ascending(slots)
    ensures Ascending(WithoutObject(slots, target, expired))
    ensures forall x :: x in WithoutObject(slots, target, expired) <==>
              x in slots && !IsBoundToObject(x.delegate, target, expired)
  {
    if slots != [] {
      var init := slots[..|slots| - 1];
      WithoutObjectMembers(init, target, expired);
      assert slots == init + [slots[|slots| - 1]];
      var out := WithoutObject(init, target, expired);
      forall j | 0 <= j < |out| ensures out[j].handle < slots[|slots| - 1].handle {
        assert out[j] in init;
      }
    }
  }

  // The documented promise, that no binding of the object is left, is kept
  // exactly when none of its bindings has expired.
  lemma RemoveAllIsCompleteIff(slots: seq<Slot>, target: Address, expired: set<Token>)
    requires Ascending(slots) && target != 0
    ensures (forall x :: x in WithoutObject(slots, target, expired) ==> x.delegate.owner != target) <==>
              forall x :: x in slots && x.delegate.owner == target ==> IsBound(x.delegate, expired)
  {
    WithoutObjectMembers(slots, target, expired);
  }

  // An expired binding of object 7 stays when everything bound to 7 is removed.
  lemma RemoveAllCanMiss()
    ensures var slots := [Slot(1, Delegate(true, true, 5, 7))];
            WithoutObject(slots, 7, {5}) == slots && slots[0].delegate.owner == 7
  {
    var slots := [Slot(1, Delegate(true, true, 5, 7))];
    assert slots[1..] == [];
    assert !IsBound(slots[0].delegate, {5});
  }

  lemma {:induction false} OnlyBoundMembers(slots: seq<Slot>, expired: set<Token>)
    requires Ascending(slots)
    ensures Ascending(OnlyBound(slots, expired))
    ensures forall x :: x in OnlyBound(slots, expired) <==> x in slots && IsBound(x.delegate, expired)
  {
    if slots != [] {
      var init := slots[..|slots| - 1];
      OnlyBoundMembers(init, expired);
      assert slots == init + [slots[|slots| - 1]];
      var out := OnlyBound(init, expired);
      forall j | 0 <= j < |out| ensures out[j].handle < slots[|slots| - 1].handle {
        assert out[j] in init;
      }
    }
  }

  lemma LaterTrans(s: State, t: State, u: State)
    requires Later(s, t) && Later(t, u)
    ensures Later(s, u)
  {
    forall i | 0 <= i < |u.slots| && u.slots[i].handle < s.counter ensures u.slots[i] in s.slots {
      assert u.slots[i] in t.slots;
    }
  }

  lemma SubsetKeeps(s: State, slots: seq<Slot>)
    requires Valid(s) && Ascending(slots) && forall x :: x in slots ==> x in s.slots
    ensures Valid(s.(slots := slots)) && Later(s, s.(slots := slots))
  {
    forall i | 0 <= i < |slots| ensures 1 <= slots[i].handle < s.counter {
      assert slots[i] in s.slots;
    }
  }

  lemma {:induction false} PerformKeeps(s: State, a: Action)
    requires Valid(s)
    ensures Valid(Perform(s, a)) && Later(s, Perform(s, a))
    ensures NewCallsFrom(s, Perform(s, a), s.depth + 1)
    decreases a, 1
  {
    match a
    case Add(d) =>
    case Remove(h) =>
      WithoutHandleMembers(s.slots, h);
      SubsetKeeps(s, WithoutHandle(s.slots, h));
    case RemoveAll(target) =>
      WithoutObjectMembers(s.slots, target, s.expired);
      SubsetKeeps(s, WithoutObject(s.slots, target, s.expired));
    case Clear =>
    case Expire(t) =>
    case AddElsewhere =>
    case Broadcast(turns) =>
      BroadcastKeeps(s, turns);
  }

  lemma {:induction false} PerformAllKeeps(s: State, actions: seq<Action>)
    requires Valid(s)
    ensures Valid(PerformAll(s, actions)) && Later(s, PerformAll(s, actions))
    ensures NewCallsFrom(s, PerformAll(s, actions), s.depth + 1)
    decreases actions, 0
  {
    if actions != [] {
      var k := |actions| - 1;
      var before := PerformAll(s, actions[..k]);
      PerformAllKeeps(s, actions[..k]);
      PerformKeeps(before, actions[k]);
      LaterTrans(s, before, Perform(before, actions[k]));
    }
  }

  lemma {:induction false} AtTurnKeeps(s: State, snapshot: seq<Slot>, turns: seq<Script>, i: nat)
    requires Valid(s) && i <= |snapshot|
    ensures Valid(AtTurn(s, snapshot, turns, i)) && Later(s, AtTurn(s, snapshot, turns, i))
    ensures NewCallsFrom(s, AtTurn(s, snapshot, turns, i), s.depth)
    decreases turns, i
  {
    if i > 0 {
      AtTurnKeeps(s, snapshot, turns, i - 1);
      OneTurnKeeps(s, snapshot, turns, i - 1);
      LaterTrans(s, AtTurn(s, snapshot, turns, i - 1), AtTurn(s, snapshot, turns, i));
    }
  }

  // One position of the loop: the call itself, then what the listener does.
  lemma {:induction false} OneTurnKeeps(s: State, snapshot: seq<Slot>, turns: seq<Script>, i: nat)
    requires i < |snapshot| && Valid(AtTurn(s, snapshot, turns, i))
    ensures var before := AtTurn(s, snapshot, turns, i);
            var after := AtTurn(s, snapshot, turns, i + 1);
            && Valid(after) && Later(before, after) && NewCallsFrom(before, after, before.depth)
            && (if Due(before, snapshot[i])
                then |after.calls| > |before.calls|
                     && after.calls[|before.calls|] == Call(before.depth, snapshot[i].handle)
                     && (forall k :: |before.calls| < k < |after.calls| ==> after.calls[k].depth > before.depth)
                else after == before)
    decreases turns, i
  {
    var before := AtTurn(s, snapshot, turns, i);
    if Due(before, snapshot[i]) && i < |turns| {
      var called := before.(calls := before.calls + [Call(before.depth, snapshot[i].handle)]);
      PerformAllKeeps(called, turns[i].actions);
      assert called.calls[|before.calls|] == Call(before.depth, snapshot[i].handle);
    }
  }

  lemma {:induction false} BroadcastKeeps(s: State, turns: seq<Script>)
    requires Valid(s)
    ensures Valid(Broadcasted(s, turns)) && Later(s, Broadcasted(s, turns))
    ensures NewCallsFrom(s, Broadcasted(s, turns), s.depth + 1)
    decreases turns, |s.slots| + 1
  {
    var inner := s.(depth := s.depth + 1);
    var visited := AtTurn(inner, s.slots, turns, |s.slots|);
    AtTurnKeeps(inner, s.slots, turns, |s.slots|);
    OnlyBoundMembers(visited.slots, visited.expired);
    SubsetKeeps(visited, OnlyBound(visited.slots, visited.expired));
    LaterTrans(inner, visited, visited.(slots := OnlyBound(visited.slots, visited.expired)));
  }

  // ---- who is called ----

  // The handles invoked by the broadcast at one nesting depth, in order.
  function AtDepth(calls: seq<Call>, depth: nat): seq<nat> {
    if calls == [] then []
    else
      var k := |calls| - 1;
      AtDepth(calls[..k], depth) + if calls[k].depth == depth then [calls[k].handle] else []
  }

  lemma {:induction false} AtDepthConcat(a: seq<Call>, b: seq<Call>, depth: nat)
    ensures AtDepth(a + b, depth) == AtDepth(a, depth) + AtDepth(b, depth)
  {
    if b == [] {
      assert a + b == a;
    } else {
      var k := |b| - 1;
      AtDepthConcat(a, b[..k], depth);
      assert (a + b)[..|a| + k] == a + b[..k];
    }
  }

  lemma {:induction false} AtDepthNone(calls: seq<Call>, depth: nat)
    requires forall k :: 0 <= k < |calls| ==> calls[k].depth != depth
    ensures AtDepth(calls, depth) == []
  {
    if calls != [] {
      AtDepthNone(calls[..|calls| - 1], depth);
    }
  }

  // The handles of the snapshot slots among the first i that were due at their turn.
  function DueHandles(s: State, snapshot: seq<Slot>, turns: seq<Script>, i: nat): seq<nat>
    requires i <= |snapshot|
  {
    if i == 0 then []
    else
      DueHandles(s, snapshot, turns, i - 1)
      + if Due(AtTurn(s, snapshot, turns, i - 1), snapshot[i - 1]) then [snapshot[i - 1].handle] else []
  }

  // One turn adds its own call at this depth and only deeper ones after it.
  lemma OneMoreCall(base: seq<Call>, before: seq<Call>, after: seq<Call>, call: Call)
    requires base <= before <= after && |before| < |after|
    requires after[|before|] == call
    requires forall k :: |before| < k < |after| ==> after[k].depth > call.depth
    ensures AtDepth(after[|base|..], call.depth) == AtDepth(before[|base|..], call.depth) + [call.handle]
  {
    var nested := after[|before| + 1..];
    AtDepthNone(nested, call.depth);
    AtDepthConcat([call], nested, call.depth);
    AtDepthConcat(before[|base|..], [call] + nested, call.depth);
    assert after[|base|..] == before[|base|..] + ([call] + nested);
    assert AtDepth([call], call.depth) == [call.handle];
  }

  lemma {:induction false} CallsAreDueHandles(s: State, snapshot: seq<Slot>, turns: seq<Script>, i: nat)
    requires Valid(s) && i <= |snapshot|
    ensures s.calls <= AtTurn(s, snapshot, turns, i).calls
    ensures AtDepth(AtTurn(s, snapshot, turns, i).calls[|s.calls|..], s.depth) == DueHandles(s, snapshot, turns, i)
    decreases i
  {
    if i > 0 {
      hide Due, Valid, Contains, Perform;
      var before, after := AtTurn(s, snapshot, turns, i - 1), AtTurn(s, snapshot, turns, i);
      CallsAreDueHandles(s, snapshot, turns, i - 1);
      AtTurnKeeps(s, snapshot, turns, i - 1);
      OneTurnKeeps(s, snapshot, turns, i - 1);
      if Due(before, snapshot[i - 1]) {
        OneMoreCall(s.calls, before.calls, after.calls, Call(s.depth, snapshot[i - 1].handle));
      }
    }
  }

  lemma {:induction false} DueHandlesMembers(s: State, snapshot: seq<Slot>, turns: seq<Script>, i: nat)
    requires Ascending(snapshot) && i <= |snapshot|
    ensures forall h :: h in DueHandles(s, snapshot, turns, i) <==>
              exists j :: 0 <= j < i && snapshot[j].handle == h && Due(AtTurn(s, snapshot, turns, j), snapshot[j])
    ensures forall a, b :: 0 <= a < b < |DueHandles(s, snapshot, turns, i)| ==>
              DueHandles(s, snapshot, turns, i)[a] < DueHandles(s, snapshot, turns, i)[b]
    decreases i
  {
    if i > 0 {
      DueHandlesMembers(s, snapshot, turns, i - 1);
      var prev := DueHandles(s, snapshot, turns, i - 1);
      forall a | 0 <= a < |prev| ensures prev[a] < snapshot[i - 1].handle {
        assert prev[a] in prev;
      }
    }
  }

  // Once a slot is gone or its target dead, it stays that way: being due at a
  // turn means having been present and bound at every earlier turn.
  lemma {:induction false} PresentEarlier(s: State, snapshot: seq<Slot>, turns: seq<Script>, i: nat, j: nat, slot: Slot)
    requires Valid(s) && i <= j <= |snapshot| && slot in s.slots
    ensures Contains(AtTurn(s, snapshot, turns, j).slots, slot.handle) ==>
              Contains(AtTurn(s, snapshot, turns, i).slots, slot.handle)
    ensures IsBound(slot.delegate, AtTurn(s, snapshot, turns, j).expired) ==>
              IsBound(slot.delegate, AtTurn(s, snapshot, turns, i).expired)
    decreases j - i
  {
    if i < j {
      PresentEarlier(s, snapshot, turns, i, j - 1, slot);
      AtTurnKeeps(s, snapshot, turns, j - 1);
      OneTurnKeeps(s, snapshot, turns, j - 1);
      StillPresent(AtTurn(s, snapshot, turns, j - 1), AtTurn(s, snapshot, turns, j), s, slot);
    }
  }

  lemma StillPresent(before: State, after: State, s: State, slot: Slot)
    requires Valid(s) && Later(s, before) && Later(before, after) && slot in s.slots
    ensures Contains(after.slots, slot.handle) ==> Contains(before.slots, slot.handle)
  {
    if Contains(after.slots, slot.handle) {
      var i :| 0 <= i < |after.slots| && after.slots[i].handle == slot.handle;
      assert after.slots[i] in before.slots;
    }
  }

  // The handles a broadcast invokes itself; nested broadcasts log at greater depth.
  function OwnCalls(s: State, turns: seq<Script>): seq<nat>
    requires Valid(s)
  {
    BroadcastKeeps(s, turns);
    AtDepth(Broadcasted(s, turns).calls[|s.calls|..], s.depth + 1)
  }

  // The main statement about Broadcast. The invocations it makes itself (those
  // of nested broadcasts are deeper) are, in ascending handle order and without
  // repetition, exactly the slots registered at its start that were still
  // registered and bound when their turn came. In particular nothing added
  // meanwhile is called, nor anything removed or expired before its turn.
  lemma BroadcastCalls(s: State, turns: seq<Script>, h: nat)
    requires Valid(s)
    ensures var direct := OwnCalls(s, turns);
            && (forall a, b :: 0 <= a < b < |direct| ==> direct[a] < direct[b])
            && (h in direct <==>
                exists i :: 0 <= i < |s.slots| && s.slots[i].handle == h
                            && Due(AtTurn(s.(depth := s.depth + 1), s.slots, turns, i), s.slots[i]))
  {
    var inner := s.(depth := s.depth + 1);
    CallsAreDueHandles(inner, s.slots, turns, |s.slots|);
    DueHandlesMembers(inner, s.slots, turns, |s.slots|);
  }

  // A listener that was removed, or whose target expired, at any moment before
  // its turn is not called.
  lemma GoneMeansNotCalled(s: State, turns: seq<Script>, i: nat, j: nat)
    requires Valid(s) && i <= j < |s.slots|
    requires !Due(AtTurn(s.(depth := s.depth + 1), s.slots, turns, i), s.slots[j])
    ensures s.slots[j].handle !in OwnCalls(s, turns)
  {
    var inner := s.(depth := s.depth + 1);
    PresentEarlier(inner, s.slots, turns, i, j, s.slots[j]);
    BroadcastCalls(s, turns, s.slots[j].handle);
  }

  // Every slot present at the start and still there on return was called, and
  // on return every remaining slot is bound, in ascending handle order.
  lemma AfterBroadcast(s: State, turns: seq<Script>, k: nat)
    requires Valid(s) && k < |Broadcasted(s, turns).slots|
    ensures var t := Broadcasted(s, turns);
            && Ascending(t.slots)
            && IsBound(t.slots[k].delegate, t.expired)
            && (t.slots[k].handle < s.counter <==> t.slots[k] in s.slots)
            && (t.slots[k] in s.slots <==> t.slots[k].handle in OwnCalls(s, turns))
  {
    var inner := s.(depth := s.depth + 1);
    var visited := AtTurn(inner, s.slots, turns, |s.slots|);
    var t := Broadcasted(s, turns);
    var slot := t.slots[k];
    BroadcastKeeps(s, turns);
    AtTurnKeeps(inner, s.slots, turns, |s.slots|);
    OnlyBoundMembers(visited.slots, visited.expired);
    assert slot in t.slots;
    BroadcastCalls(s, turns, slot.handle);
    if slot in s.slots {
      var j :| 0 <= j < |s.slots| && s.slots[j] == slot;
      var m :| 0 <= m < |visited.slots| && visited.slots[m] == slot;
      assert Contains(visited.slots, slot.handle);
      PresentEarlier(inner, s.slots, turns, j, |s.slots|, slot);
      assert Due(AtTurn(inner, s.slots, turns, j), s.slots[j]);
    }
  }

  // Nothing is left to clean up after a broadcast: Num counts every slot.
  lemma {:induction false} OnlyBoundTwice(slots: seq<Slot>, expired: set<Token>)
    ensures OnlyBound(OnlyBound(slots, expired), expired) == OnlyBound(slots, expired)
  {
    if slots != [] {
      var k := |slots| - 1;
      OnlyBoundTwice(slots[..k], expired);
      var out := OnlyBound(slots[..k], expired);
      if IsBound(slots[k].delegate, expired) {
        assert (out + [slots[k]])[..|out|] == out;
      } else {
        assert out + [] == out;
      }
    }
  }

  // Where find_if stops, and what erasing there leaves.
  lemma {:induction false} WithoutFirst(slots: seq<Slot>, handle: nat, i: nat)
    requires i <= |slots| && forall j :: 0 <= j < i ==> slots[j].handle != handle
    requires i < |slots| ==> slots[i].handle == handle
    ensures i == |slots| ==> WithoutHandle(slots, handle) == slots
    ensures i < |slots| ==> WithoutHandle(slots, handle) == slots[..i] + slots[i + 1..]
  {
    if i > 0 {
      WithoutFirst(slots[1..], handle, i - 1);
      if i < |slots| {
        assert slots[1..][..i - 1] == slots[1..i];
        assert slots[1..][i..] == slots[i + 1..];
      }
    }
  }

  // ---- the classes ----

  // What all delegates of a program share: the handle counter, and which
  // targets have died. The calls and their nesting are recorded for the proof.
  class Program {
    var counter: nat
    var expired: set<Token>
    ghost var depth: nat
    ghost var calls: seq<Call>

    constructor ()
      ensures counter == 1 && expired == {} && depth == 0 && calls == []
    {
      counter, expired, depth, calls := 1, {}, 0, [];
    }
  }

  class MulticastDelegate {
    var slots: seq<Slot>

    constructor ()
      ensures slots == []
    {
      slots := [];
    }

    ghost function Now(p: Program): State
      reads this, p
    {
      State(slots, p.counter, p.expired, p.depth, p.calls)
    }

    method AddDelegate(d: Delegate, p: Program) returns (handle: nat)
      modifies this, p`counter
      ensures handle == old(p.counter)
      ensures Now(p) == Perform(old(Now(p)), Add(d))
    {
      handle := p.counter;
      p.counter := p.counter + 1;
      slots := slots + [Slot(handle, d)];
    }

    // std::find_if, then vector::erase
    method RemoveHandle(handle: nat, ghost p: Program) returns (found: bool)
      modifies this
      ensures found == Contains(old(slots), handle)
      ensures Now(p) == Perform(old(Now(p)), Remove(handle))
    {
      var i := 0;
      while i < |slots| && slots[i].handle != handle
        invariant i <= |slots|
        invariant forall j :: 0 <= j < i ==> slots[j].handle != handle
        invariant slots == old(slots)
      {
        i := i + 1;
      }
      WithoutFirst(slots, handle, i);
      if i == |slots| {
        return false;
      }
      slots := slots[..i] + slots[i + 1..];
      found := true;
    }

    // std::erase_if
    method RemoveAllBoundTo(target: Address, p: Program) returns (removed: nat)
      modifies this
      ensures Now(p) == Perform(old(Now(p)), RemoveAll(target))
      ensures removed == |old(slots)| - |slots|
    {
      var kept, i := [], 0;
      while i < |slots|
        invariant i <= |slots| && |kept| <= i
        invariant kept == WithoutObject(slots[..i], target, p.expired)
      {
        assert slots[..i + 1][..i] == slots[..i];
        if !IsBoundToObject(slots[i].delegate, target, p.expired) {
          kept := kept + [slots[i]];
        }
        i := i + 1;
      }
      assert slots[..i] == slots;
      removed := |slots| - |kept|;
      slots := kept;
    }

    method PurgeUnbound(p: Program)
      modifies this
      ensures slots == OnlyBound(old(slots), p.expired)
    {
      var kept, i := [], 0;
      while i < |slots|
        invariant i <= |slots|
        invariant kept == OnlyBound(slots[..i], p.expired)
      {
        assert slots[..i + 1][..i] == slots[..i];
        if IsBound(slots[i].delegate, p.expired) {
          kept := kept + [slots[i]];
        }
        i := i + 1;
      }
      assert slots[..i] == slots;
      slots := kept;
    }

    // std::any_of
    method HasHandle(handle: nat) returns (found: bool)
      ensures found == Contains(slots, handle)
    {
      var i := 0;
      while i < |slots|
        invariant i <= |slots|
        invariant forall j :: 0 <= j < i ==> slots[j].handle != handle
      {
        if slots[i].handle == handle {
          return true;
        }
        i := i + 1;
      }
      found := false;
    }

    // std::count_if: slots whose target has died are not counted
    method Num(p: Program) returns (n: nat)
      ensures n == |OnlyBound(slots, p.expired)|
    {
      var i := 0;
      n := 0;
      while i < |slots|
        invariant i <= |slots|
        invariant n == |OnlyBound(slots[..i], p.expired)|
      {
        assert slots[..i + 1][..i] == slots[..i];
        if IsBound(slots[i].delegate, p.expired) {
          n := n + 1;
        }
        i := i + 1;
      }
      assert slots[..i] == slots;
    }

    // What a running listener does with one action.
    method Do(a: Action, p: Program)
      modifies this, p
      ensures Now(p) == Perform(old(Now(p)), a)
      decreases a, 1
    {
      match a {
        case Add(d) => var _ := AddDelegate(d, p);
        case Remove(h) => var _ := RemoveHandle(h, p);
        case RemoveAll(target) => var _ := RemoveAllBoundTo(target, p);
        case Clear => slots := [];
        case Expire(t) => p.expired := p.expired + {t};
        case AddElsewhere => p.counter := p.counter + 1;
        case Broadcast(turns) => BroadcastNow(turns, p);
      }
    }

    method DoAll(actions: seq<Action>, p: Program)
      modifies this, p
      ensures Now(p) == PerformAll(old(Now(p)), actions)
      decreases actions, 0
    {
      var i := 0;
      while i < |actions|
        invariant i <= |actions|
        invariant Now(p) == PerformAll(old(Now(p)), actions[..i])
      {
        assert actions[..i + 1][..i] == actions[..i];
        Do(actions[i], p);
        i := i + 1;
      }
      assert actions[..i] == actions;
    }

    // Iterates over a snapshot; what the listeners do changes `slots` meanwhile.
    method BroadcastNow(turns: seq<Script>, p: Program)
      modifies this, p
      ensures Now(p) == Broadcasted(old(Now(p)), turns)
      decreases turns, 0
    {
      var snapshot := slots;
      p.depth := p.depth + 1;
      ghost var inner := Now(p);
      var i := 0;
      while i < |snapshot|
        invariant i <= |snapshot|
        invariant Now(p) == AtTurn(inner, snapshot, turns, i)
      {
        var registered := HasHandle(snapshot[i].handle);
        if registered && IsBound(snapshot[i].delegate, p.expired) {
          p.calls := p.calls + [Call(p.depth, snapshot[i].handle)];
          if i < |turns| {
            DoAll(turns[i].actions, p);
          }
        }
        i := i + 1;
      }
      PurgeUnbound(p);
      p.depth := inner.depth - 1;
    }
  }
}

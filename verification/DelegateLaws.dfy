// What a broadcast means for one listener, in terms of its own slot: what it
// was bound to, whether that still lives, and what other listeners do.
module DelegateLaws {
  import opened Delegates

  // The state inside a broadcast when position j's turn comes.
  function TurnOf(s: State, turns: seq<Script>, j: nat): State
    requires j <= |s.slots|
  {
    AtTurn(s.(depth := s.depth + 1), s.slots, turns, j)
  }

  // Slot j is called if and only if, when its turn comes, it is still
  // registered, something is bound in it, and the object it watches, if it
  // watches one, is alive.
  lemma CalledIff(s: State, turns: seq<Script>, j: nat)
    requires Valid(s) && j < |s.slots|
    ensures var slot, now := s.slots[j], TurnOf(s, turns, j);
            slot.handle in OwnCalls(s, turns) <==>
              && slot in now.slots
              && slot.delegate.invocation
              && (slot.delegate.usesWeak ==> slot.delegate.weak !in now.expired)
  {
    var slot, now := s.slots[j], TurnOf(s, turns, j);
    BroadcastCalls(s, turns, slot.handle);
    AtTurnKeeps(s.(depth := s.depth + 1), s.slots, turns, j);
    RegisteredIff(s.(depth := s.depth + 1), now, slot);
    hide OwnCalls, AtTurn;
    assert Due(now, slot) <==>
             && slot in now.slots && slot.delegate.invocation
             && (slot.delegate.usesWeak ==> slot.delegate.weak !in now.expired);
  }

  // A handle stands for the same slot as long as it stands for any.
  lemma RegisteredIff(s: State, now: State, slot: Slot)
    requires Valid(s) && Later(s, now) && slot in s.slots
    ensures Contains(now.slots, slot.handle) <==> slot in now.slots
  {
    if Contains(now.slots, slot.handle) {
      var i :| 0 <= i < |now.slots| && now.slots[i].handle == slot.handle;
      assert now.slots[i] in s.slots;
      SameHandleSameSlot(s.slots, now.slots[i], slot);
    }
  }

  lemma SameHandleSameSlot(slots: seq<Slot>, a: Slot, b: Slot)
    requires Ascending(slots) && a in slots && b in slots && a.handle == b.handle
    ensures a == b
  {
    var i :| 0 <= i < |slots| && slots[i] == a;
    var j :| 0 <= j < |slots| && slots[j] == b;
  }

  // ---- what single actions do ----

  // A delegate just added is registered under the next handle, beside all the
  // others, and the next broadcast calls it if it can be called.
  lemma AddedIsCalled(s: State, d: Delegate, turns: seq<Script>)
    requires Valid(s) && turns == []
    ensures var t := Perform(s, Add(d));
            && Valid(t) && t.counter == s.counter + 1 && t.expired == s.expired
            && (forall x :: x in t.slots <==> x in s.slots || x == Slot(s.counter, d))
            && (s.counter in OwnCalls(t, turns) <==> d.invocation && (d.usesWeak ==> d.weak !in s.expired))
  {
    var t := Perform(s, Add(d));
    PerformKeeps(s, Add(d));
    var j := |s.slots|;
    assert t.slots[j] == Slot(s.counter, d);
    CalledIff(t, turns, j);
    UndisturbedStays(t, turns, j);
    assert t.slots[j] in TurnOf(t, turns, j).slots;
  }

  // After Clear a broadcast calls nobody.
  lemma ClearSilences(s: State, turns: seq<Script>)
    requires Valid(s)
    ensures Valid(Perform(s, Clear)) && OwnCalls(Perform(s, Clear), turns) == []
  {
    var t := Perform(s, Clear);
    PerformKeeps(s, Clear);
    var direct := OwnCalls(t, turns);
    if direct != [] {
      BroadcastCalls(t, turns, direct[0]);
    }
  }

  // What an action does to a slot it concerns.
  predicate Silences(a: Action, slot: Slot) {
    || a == Remove(slot.handle) || a == Clear
    || (a == RemoveAll(slot.delegate.owner) && slot.delegate.owner != 0)
    || (a == Expire(slot.delegate.weak) && slot.delegate.usesWeak)
  }

  predicate Silent(s: State, slot: Slot) {
    || slot !in s.slots || !slot.delegate.invocation
    || (slot.delegate.usesWeak && slot.delegate.weak in s.expired)
  }

  lemma SilencedByAction(s: State, a: Action, slot: Slot)
    requires Valid(s) && Silences(a, slot)
    ensures Silent(Perform(s, a), slot)
  {
    if a.Remove? {
      WithoutHandleMembers(s.slots, a.handle);
    } else if a.RemoveAll? {
      WithoutObjectMembers(s.slots, a.target, s.expired);
    }
  }

  // Nothing gives a slot its voice back.
  lemma StaysSilent(s: State, before: State, after: State, slot: Slot)
    requires Valid(s) && slot in s.slots && Later(s, before) && Later(before, after)
    requires Silent(before, slot)
    ensures Silent(after, slot)
  {}

  lemma {:induction false} SilencedByScript(s: State, now: State, actions: seq<Action>, k: nat, slot: Slot)
    requires Valid(s) && slot in s.slots && Valid(now) && Later(s, now)
    requires k < |actions| && Silences(actions[k], slot)
    ensures Silent(PerformAll(now, actions), slot)
    decreases |actions|
  {
    var init, last := actions[..|actions| - 1], actions[|actions| - 1];
    var before := PerformAll(now, init);
    PerformAllKeeps(now, init);
    LaterTrans(s, now, before);
    if k == |actions| - 1 {
      SilencedByAction(before, last, slot);
    } else {
      SilencedByScript(s, now, init, k, slot);
      PerformKeeps(before, last);
      StaysSilent(s, before, PerformAll(now, actions), slot);
    }
  }

  // A listener that is called and removes, clears or expires a later one
  // keeps that one from being called.
  lemma SilencedListener(s: State, turns: seq<Script>, i: nat, j: nat, k: nat)
    requires Valid(s) && i < j < |s.slots| && s.slots[i].handle in OwnCalls(s, turns)
    requires i < |turns| && k < |turns[i].actions| && Silences(turns[i].actions[k], s.slots[j])
    ensures s.slots[j].handle !in OwnCalls(s, turns)
  {
    var inner, slot := s.(depth := s.depth + 1), s.slots[j];
    var before := TurnOf(s, turns, i);
    AtTurnKeeps(inner, s.slots, turns, i);
    CalledIff(s, turns, i);
    RegisteredIff(inner, before, s.slots[i]);
    assert Due(before, s.slots[i]);
    var called := before.(calls := before.calls + [Call(before.depth, s.slots[i].handle)]);
    assert Later(inner, called) && Valid(called);
    SilencedByScript(inner, called, turns[i].actions, k, slot);
    assert TurnOf(s, turns, i + 1) == PerformAll(called, turns[i].actions);
    SilentUntil(s, turns, i + 1, j, slot);
    CalledIff(s, turns, j);
  }

  lemma {:induction false} SilentUntil(s: State, turns: seq<Script>, i: nat, j: nat, slot: Slot)
    requires Valid(s) && i <= j <= |s.slots| && slot in s.slots && Silent(TurnOf(s, turns, i), slot)
    ensures Silent(TurnOf(s, turns, j), slot)
    decreases j - i
  {
    if i < j {
      var inner := s.(depth := s.depth + 1);
      SilentUntil(s, turns, i, j - 1, slot);
      AtTurnKeeps(inner, s.slots, turns, j - 1);
      OneTurnKeeps(inner, s.slots, turns, j - 1);
      StaysSilent(inner, TurnOf(s, turns, j - 1), TurnOf(s, turns, j), slot);
    }
  }

  // A target that is dead when the broadcast starts is not called.
  lemma DeadFromTheStart(s: State, turns: seq<Script>, j: nat)
    requires Valid(s) && j < |s.slots|
    requires var d := s.slots[j].delegate; !d.invocation || (d.usesWeak && d.weak in s.expired)
    ensures s.slots[j].handle !in OwnCalls(s, turns)
  {
    SilentUntil(s, turns, 0, j, s.slots[j]);
    CalledIff(s, turns, j);
  }

  // ---- who is called for certain ----

  // Does nothing that could keep the slot from being called.
  predicate Harmless(a: Action, slot: Slot) {
    !Silences(a, slot) && !a.Broadcast?
  }

  predicate HarmlessBefore(turns: seq<Script>, j: nat, slot: Slot) {
    forall i, k :: 0 <= i < j && i < |turns| && 0 <= k < |turns[i].actions| ==> Harmless(turns[i].actions[k], slot)
  }

  predicate Untouched(s: State, now: State, slot: Slot) {
    && slot in now.slots
    && (slot.delegate.usesWeak ==> (slot.delegate.weak in now.expired <==> slot.delegate.weak in s.expired))
  }

  lemma HarmlessAction(s: State, now: State, a: Action, slot: Slot)
    requires Valid(now) && Untouched(s, now, slot) && Harmless(a, slot)
    ensures Untouched(s, Perform(now, a), slot)
  {
    if a.Remove? {
      WithoutHandleMembers(now.slots, a.handle);
    } else if a.RemoveAll? {
      WithoutObjectMembers(now.slots, a.target, now.expired);
    }
  }

  lemma {:induction false} HarmlessScript(s: State, now: State, actions: seq<Action>, slot: Slot)
    requires Valid(now) && Untouched(s, now, slot)
    requires forall k :: 0 <= k < |actions| ==> Harmless(actions[k], slot)
    ensures Untouched(s, PerformAll(now, actions), slot)
    decreases |actions|
  {
    if actions != [] {
      var init := actions[..|actions| - 1];
      HarmlessScript(s, now, init, slot);
      PerformAllKeeps(now, init);
      HarmlessAction(s, PerformAll(now, init), actions[|actions| - 1], slot);
    }
  }

  lemma {:induction false} UndisturbedUntil(s: State, turns: seq<Script>, j: nat, slot: Slot)
    requires Valid(s) && j <= |s.slots| && slot in s.slots && HarmlessBefore(turns, j, slot)
    ensures Untouched(s, TurnOf(s, turns, j), slot)
  {
    if j > 0 {
      var inner := s.(depth := s.depth + 1);
      UndisturbedUntil(s, turns, j - 1, slot);
      AtTurnKeeps(inner, s.slots, turns, j - 1);
      var before := TurnOf(s, turns, j - 1);
      var called := before.(calls := before.calls + [Call(before.depth, s.slots[j - 1].handle)]);
      if Due(before, s.slots[j - 1]) && j - 1 < |turns| {
        HarmlessScript(s, called, turns[j - 1].actions, slot);
      }
    }
  }

  lemma UndisturbedStays(s: State, turns: seq<Script>, j: nat)
    requires Valid(s) && j < |s.slots| && HarmlessBefore(turns, j, s.slots[j])
    ensures Untouched(s, TurnOf(s, turns, j), s.slots[j])
  {
    UndisturbedUntil(s, turns, j, s.slots[j]);
  }

  // A listener that no earlier one interferes with is called, once, exactly if
  // it could be called when the broadcast started.
  lemma UndisturbedIsCalled(s: State, turns: seq<Script>, j: nat)
    requires Valid(s) && j < |s.slots| && HarmlessBefore(turns, j, s.slots[j])
    ensures var d := s.slots[j].delegate;
            s.slots[j].handle in OwnCalls(s, turns) <==> d.invocation && (d.usesWeak ==> d.weak !in s.expired)
  {
    UndisturbedStays(s, turns, j);
    CalledIff(s, turns, j);
  }

  // RemoveAll takes out the bindings of the object that can still be called,
  // and keeps all others in order; for nullptr it does nothing.
  lemma RemovedByObjectIff(slots: seq<Slot>, target: Address, expired: set<Token>, x: Slot)
    requires Ascending(slots)
    ensures Ascending(WithoutObject(slots, target, expired))
    ensures x in WithoutObject(slots, target, expired) <==>
              && x in slots
              && !(target != 0 && x.delegate.owner == target && x.delegate.invocation
                   && (x.delegate.usesWeak ==> x.delegate.weak !in expired))
  {
    WithoutObjectMembers(slots, target, expired);
  }

  // ---- nested broadcasts, and what is left ----

  // A broadcast that a listener starts is as complete as any other.
  lemma NestedIsFull(s: State, turns: seq<Script>)
    requires Valid(s)
    ensures var t := Perform(s, Broadcast(turns));
            && s.calls <= t.calls && t.depth == s.depth
            && AtDepth(t.calls[|s.calls|..], s.depth + 1) == OwnCalls(s, turns)
  {
    hide Broadcasted, AtDepth, Valid, NewCallsFrom, PerformAll, AtTurn;
    BroadcastKeeps(s, turns);
    assert Perform(s, Broadcast(turns)) == Broadcasted(s, turns);
    hide Perform;
  }

  // After the last turn exactly the slots stay that can still be called.
  lemma KeptIff(s: State, turns: seq<Script>, x: Slot)
    requires Valid(s)
    ensures var t, now := Broadcasted(s, turns), TurnOf(s, turns, |s.slots|);
            && t.expired == now.expired && t.counter == now.counter
            && (x in t.slots <==>
                  && x in now.slots && x.delegate.invocation
                  && (x.delegate.usesWeak ==> x.delegate.weak !in now.expired))
  {
    var inner := s.(depth := s.depth + 1);
    AtTurnKeeps(inner, s.slots, turns, |s.slots|);
    OnlyBoundMembers(TurnOf(s, turns, |s.slots|).slots, TurnOf(s, turns, |s.slots|).expired);
  }
}

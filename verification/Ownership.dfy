// Who owns which coroutine frame: a wrapper (task or generator) owns at most
// one frame, and wrappers that are locals or parameters of a coroutine live
// inside its frame, so that destroying a frame destroys them too.
module Ownership {
  import opened Options

  // home is the frame the wrapper lives in, if it does not live outside all of them.
  datatype Wrapper = Wrapper(home: Option<nat>, handle: Option<nat>)

  // The live wrappers, and for each live frame the wrapper that owns it.
  datatype Heap = Heap(wrappers: map<nat, Wrapper>, owner: map<nat, nat>)

  // ---- the shape of ownership ----

  // The frame that holds f's owner.
  function Parent(h: Heap, f: nat): Option<nat> {
    if f in h.owner && h.owner[f] in h.wrappers then h.wrappers[h.owner[f]].home else None
  }

  function Up(h: Heap, f: nat, n: nat): Option<nat> {
    if n == 0 then Some(f)
    else
      match Up(h, f, n - 1)
      case None => None
      case Some(g) => Parent(h, g)
  }

  // f is g, or destroyed along with it.
  ghost predicate Inside(h: Heap, f: nat, g: nat) {
    exists n: nat :: Up(h, f, n) == Some(g)
  }

  ghost predicate LivesIn(h: Heap, w: nat, f: nat)
    requires w in h.wrappers
  {
    h.wrappers[w].home.Some? && Inside(h, h.wrappers[w].home.value, f)
  }

  // Going from owner to owner leads outside in the end.
  ghost predicate Grounded(h: Heap, f: nat) {
    exists n: nat :: Up(h, f, n) == None
  }

  // Handles are distinct and alive, no frame is without owner, no home is gone.
  predicate Matched(h: Heap) {
    && (forall w :: w in h.wrappers && h.wrappers[w].handle.Some? ==>
          h.wrappers[w].handle.value in h.owner && h.owner[h.wrappers[w].handle.value] == w)
    && (forall f :: f in h.owner ==> h.owner[f] in h.wrappers && h.wrappers[h.owner[f]].handle == Some(f))
    && (forall w :: w in h.wrappers && h.wrappers[w].home.Some? ==> h.wrappers[w].home.value in h.owner)
  }

  ghost predicate Forest(h: Heap) {
    Matched(h) && forall f :: f in h.owner ==> Grounded(h, f)
  }

  lemma {:induction false} UpAdd(h: Heap, f: nat, m: nat, n: nat)
    ensures Up(h, f, m + n) == match Up(h, f, m) case None => None case Some(g) => Up(h, g, n)
  {
    if n > 0 {
      UpAdd(h, f, m, n - 1);
    }
  }

  lemma InsideOneUp(h: Heap, f: nat, g: nat)
    requires f != g
    ensures Inside(h, f, g) <==> Parent(h, f).Some? && Inside(h, Parent(h, f).value, g)
  {
    assert Up(h, f, 0) == Some(f);
    assert Up(h, f, 1) == Parent(h, f);
    if n: nat :| Up(h, f, n) == Some(g) {
      UpAdd(h, f, 1, n - 1);
    }
    if Parent(h, f).Some? && Inside(h, Parent(h, f).value, g) {
      var n: nat :| Up(h, Parent(h, f).value, n) == Some(g);
      UpAdd(h, f, 1, n);
    }
  }

  lemma InsideTransitive(h: Heap, f: nat, g: nat, k: nat)
    requires Inside(h, f, g) && Inside(h, g, k)
    ensures Inside(h, f, k)
  {
    var m: nat :| Up(h, f, m) == Some(g);
    var n: nat :| Up(h, g, n) == Some(k);
    UpAdd(h, f, m, n);
  }

  lemma {:induction false} NoLoop(h: Heap, f: nat, period: nat, end: nat)
    requires period > 0 && Up(h, f, period) == Some(f)
    ensures Up(h, f, end).Some?
    decreases end
  {
    if end < period {
      UpAdd(h, f, end, period - end);
    } else {
      UpAdd(h, f, period, end - period);
      NoLoop(h, f, period, end - period);
    }
  }

  // No frame lives in its own tree.
  lemma NotInsideItself(h: Heap, f: nat)
    requires Grounded(h, f) && Parent(h, f).Some?
    ensures !Inside(h, Parent(h, f).value, f)
  {
    var end: nat :| Up(h, f, end) == None;
    assert Up(h, f, 0) == Some(f);
    assert Up(h, f, 1) == Parent(h, f);
    if n: nat :| Up(h, Parent(h, f).value, n) == Some(f) {
      UpAdd(h, f, 1, n);
      NoLoop(h, f, 1 + n, end);
    }
  }

  // ---- part of a heap ----

  ghost predicate Part(h: Heap, whole: Heap) {
    && (forall f :: f in h.owner ==> f in whole.owner && h.owner[f] == whole.owner[f])
    && (forall w :: w in h.wrappers ==> w in whole.wrappers && h.wrappers[w].home == whole.wrappers[w].home)
  }

  lemma {:induction false} PartUp(h: Heap, whole: Heap, f: nat, n: nat)
    requires Part(h, whole) && Matched(h) && f in h.owner
    ensures Up(h, f, n) == Up(whole, f, n)
    ensures Up(h, f, n).Some? ==> Up(h, f, n).value in h.owner
  {
    if n > 0 {
      PartUp(h, whole, f, n - 1);
    }
  }

  lemma PartInside(h: Heap, whole: Heap, f: nat, g: nat)
    requires Part(h, whole) && Matched(h) && f in h.owner
    ensures Inside(h, f, g) <==> Inside(whole, f, g)
    ensures Inside(h, f, g) ==> g in h.owner
  {
    if n: nat :| Up(h, f, n) == Some(g) {
      PartUp(h, whole, f, n);
    }
    if n: nat :| Up(whole, f, n) == Some(g) {
      PartUp(h, whole, f, n);
    }
  }

  lemma PartForest(h: Heap, whole: Heap)
    requires Part(h, whole) && Matched(h) && Forest(whole)
    ensures Forest(h)
  {
    forall f | f in h.owner ensures Grounded(h, f) {
      assert Grounded(whole, f);
      var n: nat :| Up(whole, f, n) == None;
      PartUp(h, whole, f, n);
    }
  }

  // ---- nothing leaks ----

  // Every live frame is kept alive by a wrapper outside all frames.
  lemma {:induction false} HasRoot(h: Heap, f: nat, n: nat) returns (root: nat)
    requires Matched(h) && f in h.owner && Up(h, f, n) == None
    ensures root in h.owner && Inside(h, f, root)
    ensures h.owner[root] in h.wrappers && h.wrappers[h.owner[root]].home == None
    decreases n
  {
    assert Up(h, f, 0) == Some(f);
    if Parent(h, f).None? {
      root := f;
    } else {
      UpAdd(h, f, 1, n - 1);
      assert Up(h, f, 1) == Parent(h, f);
      root := HasRoot(h, Parent(h, f).value, n - 1);
      hide Up, Matched;
      if root != f {
        InsideOneUp(h, f, root);
      }
    }
  }

  // With no wrapper left outside, no frame is left at all.
  lemma NothingLeaks(h: Heap)
    requires Forest(h) && forall w :: w in h.wrappers ==> h.wrappers[w].home.Some?
    ensures forall f :: f !in h.owner
  {
    if f :| f in h.owner {
      assert Grounded(h, f);
      var n: nat :| Up(h, f, n) == None;
      var root := HasRoot(h, f, n);
    }
  }

  // ---- what the operations do ----

  // w's frame is destroyed with everything in its tree, and w is empty.
  ghost function Destroyed(h: Heap, w: nat): Heap
    requires w in h.wrappers
  {
    match h.wrappers[w].handle
    case None => h
    case Some(f) =>
      Heap(map v | v in h.wrappers && !LivesIn(h, v, f) ::
             if v == w then h.wrappers[v].(handle := None) else h.wrappers[v],
           map g | g in h.owner && !Inside(h, g, f) :: h.owner[g])
  }

  // dst, which is empty, takes over src's frame.
  function Taken(h: Heap, dst: nat, src: nat): Heap
    requires dst in h.wrappers && src in h.wrappers && dst != src
  {
    match h.wrappers[src].handle
    case None => h
    case Some(f) =>
      Heap(h.wrappers[src := h.wrappers[src].(handle := None)][dst := h.wrappers[dst].(handle := Some(f))],
           h.owner[f := dst])
  }

  // Move assignment; None when it reads a wrapper it has just destroyed.
  ghost function MoveAssigned(h: Heap, dst: nat, src: nat): Option<Heap>
    requires dst in h.wrappers && src in h.wrappers
  {
    if dst == src then Some(h)
    else if src !in Destroyed(h, dst).wrappers || dst !in Destroyed(h, dst).wrappers then None
    else Some(Taken(Destroyed(h, dst), dst, src))
  }

  // ---- when moving is safe ----

  ghost predicate InTreeOf(h: Heap, w: nat, owner: nat)
    requires w in h.wrappers && owner in h.wrappers
  {
    h.wrappers[owner].handle.Some? && LivesIn(h, w, h.wrappers[owner].handle.value)
  }

  ghost predicate Safe(h: Heap, dst: nat, src: nat)
    requires dst in h.wrappers && src in h.wrappers
  {
    dst == src || (!InTreeOf(h, src, dst) && !InTreeOf(h, dst, src))
  }

  lemma {:induction false} StillReaches(h: Heap, t: Heap, f: nat, g: nat, n: nat) returns (m: nat)
    requires forall k :: k != f ==> Parent(t, k) == Parent(h, k)
    requires Up(h, g, n) == Some(f)
    ensures Up(t, g, m) == Some(f)
    decreases n
  {
    assert Up(h, g, 0) == Some(g);
    if g == f {
      m := 0;
    } else {
      UpAdd(h, g, 1, n - 1);
      assert Up(h, g, 1) == Parent(h, g) == Parent(t, g) == Up(t, g, 1) by {
        assert Up(t, g, 0) == Some(g);
      }
      m := StillReaches(h, t, f, Parent(h, g).value, n - 1);
      UpAdd(t, g, 1, m);
      m := 1 + m;
    }
  }

  lemma {:induction false} StillGrounded(h: Heap, t: Heap, f: nat, g: nat, n: nat)
    requires forall k :: k != f ==> Parent(t, k) == Parent(h, k)
    requires Up(h, g, n) == None
    requires Inside(h, g, f) ==> Grounded(t, f)
    ensures Grounded(t, g)
    decreases n
  {
    assert Up(h, g, 0) == Some(g) && Up(t, g, 0) == Some(g);
    if g != f {
      assert Up(h, g, 1) == Parent(h, g) == Parent(t, g) == Up(t, g, 1);
      if Parent(h, g).Some? {
        var p := Parent(h, g).value;
        UpAdd(h, g, 1, n - 1);
        InsideOneUp(h, g, f);
        StillGrounded(h, t, f, p, n - 1);
        var m: nat :| Up(t, p, m) == None;
        UpAdd(t, g, 1, m);
      }
    }
  }

  lemma TakenMatched(h: Heap, dst: nat, src: nat)
    requires Matched(h) && dst in h.wrappers && src in h.wrappers && dst != src
    requires h.wrappers[dst].handle.None? && h.wrappers[src].handle.Some?
    ensures Matched(Taken(h, dst, src))
  {}

  lemma TakenParents(h: Heap, dst: nat, src: nat)
    requires Matched(h) && dst in h.wrappers && src in h.wrappers && dst != src
    requires h.wrappers[dst].handle.None? && h.wrappers[src].handle.Some?
    ensures Matched(Taken(h, dst, src))
    ensures var f := h.wrappers[src].handle.value;
            && Parent(Taken(h, dst, src), f) == h.wrappers[dst].home
            && forall k :: k != f ==> Parent(Taken(h, dst, src), k) == Parent(h, k)
  {
    TakenMatched(h, dst, src);
  }

  // Handing a frame over keeps every frame reachable from outside, unless the
  // receiver lives in that very frame's tree.
  lemma TakenIsForest(h: Heap, dst: nat, src: nat)
    requires Forest(h) && dst in h.wrappers && src in h.wrappers && dst != src && h.wrappers[dst].handle.None?
    ensures Forest(Taken(h, dst, src)) <==> !InTreeOf(h, dst, src)
  {
    if h.wrappers[src].handle.Some? {
      var t, f := Taken(h, dst, src), h.wrappers[src].handle.value;
      TakenParents(h, dst, src);
      assert Up(t, f, 0) == Some(f);
      assert Up(t, f, 1) == h.wrappers[dst].home;
      if InTreeOf(h, dst, src) {
        var home := h.wrappers[dst].home.value;
        var n: nat :| Up(h, home, n) == Some(f);
        var m := StillReaches(h, t, f, home, n);
        UpAdd(t, f, 1, m);
        assert Inside(t, home, f);
        if Grounded(t, f) {
          NotInsideItself(t, f);
        }
      } else {
        NewHomeGrounded(h, dst, src);
        forall g | g in t.owner ensures Grounded(t, g) {
          assert Grounded(h, g);
          var n: nat :| Up(h, g, n) == None;
          StillGrounded(h, t, f, g, n);
        }
      }
    }
  }

  lemma NewHomeGrounded(h: Heap, dst: nat, src: nat)
    requires Forest(h) && dst in h.wrappers && src in h.wrappers && dst != src && h.wrappers[dst].handle.None?
    requires h.wrappers[src].handle.Some? && !InTreeOf(h, dst, src)
    ensures Grounded(Taken(h, dst, src), h.wrappers[src].handle.value)
  {
    var t, f := Taken(h, dst, src), h.wrappers[src].handle.value;
    TakenParents(h, dst, src);
    assert Up(t, f, 0) == Some(f);
    assert Up(t, f, 1) == h.wrappers[dst].home;
    if h.wrappers[dst].home.Some? {
      var home := h.wrappers[dst].home.value;
      assert Grounded(h, home);
      var n: nat :| Up(h, home, n) == None;
      StillGrounded(h, t, f, home, n);
      var m: nat :| Up(t, home, m) == None;
      UpAdd(t, f, 1, m);
    }
  }

  // What destroying leaves is a forest again, with w still there and empty.
  lemma DestroyedIsForest(h: Heap, w: nat)
    requires Forest(h) && w in h.wrappers
    ensures Forest(Destroyed(h, w)) && Part(Destroyed(h, w), h)
    ensures w in Destroyed(h, w).wrappers && Destroyed(h, w).wrappers[w].handle.None?
  {
    if h.wrappers[w].handle.Some? {
      var f := h.wrappers[w].handle.value;
      var t := Destroyed(h, w);
      assert Grounded(h, f);
      if Parent(h, f).Some? {
        NotInsideItself(h, f);
      }
      assert Up(h, f, 0) == Some(f);
      forall g | g in h.owner
        ensures g != f ==> (g in t.owner <==> h.owner[g] in t.wrappers)
      {
        if g != f {
          InsideOneUp(h, g, f);
        }
      }
      PartForest(t, h);
    }
  }

  // Move assignment works out exactly when neither wrapper lives in the tree
  // of the other's frame: otherwise it either reads a wrapper that it has just
  // destroyed, or makes a frame own itself.
  lemma MoveAssignSafeIff(h: Heap, dst: nat, src: nat)
    requires Forest(h) && dst in h.wrappers && src in h.wrappers
    ensures MoveAssigned(h, dst, src).None? <==> dst != src && InTreeOf(h, src, dst)
    ensures MoveAssigned(h, dst, src).Some? && Forest(MoveAssigned(h, dst, src).value) <==> Safe(h, dst, src)
  {
    if dst != src {
      DestroyedIsForest(h, dst);
      var t := Destroyed(h, dst);
      if src in t.wrappers {
        TakenIsForest(t, dst, src);
        if h.wrappers[src].handle.Some? && h.wrappers[dst].home.Some? {
          PartInside(t, h, h.wrappers[dst].home.value, h.wrappers[src].handle.value);
        }
      }
    }
  }

  // Move construction of a new wrapper works out exactly when its home is
  // outside the tree of the source's frame.
  lemma MoveConstructSafeIff(h: Heap, id: nat, home: Option<nat>, src: nat)
    requires Forest(h) && id !in h.wrappers && (home.Some? ==> home.value in h.owner) && src in h.wrappers
    ensures Forest(Taken(WithEmpty(h, id, home), id, src)) <==>
              !(h.wrappers[src].handle.Some? && home.Some? && Inside(h, home.value, h.wrappers[src].handle.value))
  {
    EmptyIsForest(h, id, home);
    var t := WithEmpty(h, id, home);
    TakenIsForest(t, id, src);
    if home.Some? && h.wrappers[src].handle.Some? {
      PartInside(h, t, home.value, h.wrappers[src].handle.value);
    }
  }

  // ---- an unsafe pair ----

  // An outside wrapper 0 owns frame 0, in which wrapper 1 owns frame 1.
  function Nested(): Heap {
    Heap(map[0 := Wrapper(None, Some(0)), 1 := Wrapper(Some(0), Some(1))], map[0 := 0, 1 := 1])
  }

  lemma NestedIsForest()
    ensures Forest(Nested()) && InTreeOf(Nested(), 1, 0)
  {
    var h := Nested();
    assert Up(h, 0, 0) == Some(0) && Up(h, 1, 0) == Some(1);
    assert Up(h, 0, 1) == None;
    assert Up(h, 1, 1) == Some(0);
    assert Up(h, 1, 2) == None;
  }

  // Assigning the inner wrapper to the outer one reads a destroyed wrapper;
  // assigning the outer one to the inner one leaves a frame nobody can reach.
  lemma MoveAssignCanFail()
    ensures Forest(Nested())
    ensures MoveAssigned(Nested(), 0, 1) == None
    ensures MoveAssigned(Nested(), 1, 0).Some? && !Forest(MoveAssigned(Nested(), 1, 0).value)
  {
    NestedIsForest();
    var h := Nested();
    MoveAssignSafeIff(h, 0, 1);
    MoveAssignSafeIff(h, 1, 0);
    assert !InTreeOf(h, 0, 1);
  }

  // ---- destroying step by step ----

  // Part of the way through destroying w's frame f: some of the wrappers in f
  // are gone, each with its whole tree.
  ghost predicate Emptying(h: Heap, whole: Heap, w: nat, f: nat) {
    && Forest(h) && Part(h, whole)
    && w in h.wrappers && h.wrappers[w].handle == Some(f)
    && (forall v :: v in h.wrappers ==> h.wrappers[v] == whole.wrappers[v])
    && (forall v :: v in whole.wrappers && v !in h.wrappers ==> LivesIn(whole, v, f))
    && (forall g :: g in whole.owner && g !in h.owner ==> g != f && Inside(whole, g, f))
  }

  function Without(h: Heap, v: nat): Heap {
    h.(wrappers := h.wrappers - {v})
  }

  // From h to t, only v and things inside f went.
  ghost predicate Confined(h: Heap, t: Heap, whole: Heap, w: nat, f: nat, v: nat) {
    && w != v && w in t.wrappers
    && (forall u :: u in t.wrappers && u != v ==> u in h.wrappers && t.wrappers[u] == h.wrappers[u])
    && (forall u :: u in h.wrappers && u in whole.wrappers && u !in t.wrappers ==> LivesIn(whole, u, f))
    && (forall g :: g in h.owner && g !in t.owner ==> g != f && Inside(whole, g, f))
  }

  // Destroying v, a wrapper in f, touches nothing outside f.
  lemma ChildEffect(h: Heap, whole: Heap, w: nat, f: nat, v: nat)
    requires Emptying(h, whole, w, f) && v in h.wrappers && h.wrappers[v].home == Some(f)
    ensures Confined(h, Destroyed(h, v), whole, w, f, v)
  {
    OwnerOutside(h, w, f);
    assert Up(h, f, 0) == Some(f);
    assert LivesIn(h, v, f);
    if h.wrappers[v].handle.Some? {
      var child := h.wrappers[v].handle.value;
      assert Parent(h, child) == Some(f);
      ChildTree(h, whole, f, child);
      DeeperInside(h, w, child, f);
      forall u | u in h.wrappers && LivesIn(h, u, child) ensures LivesIn(whole, u, f) {
        assert h.wrappers[u] == whole.wrappers[u];
      }
    }
  }

  lemma ChildDestroyed(h: Heap, whole: Heap, w: nat, f: nat, v: nat)
    requires Emptying(h, whole, w, f) && v in h.wrappers && h.wrappers[v].home == Some(f)
    ensures v in Destroyed(h, v).wrappers && Emptying(Without(Destroyed(h, v), v), whole, w, f)
  {
    DestroyedIsForest(h, v);
    ChildEffect(h, whole, w, f, v);
    WithoutForest(Destroyed(h, v), v);
    assert Up(whole, f, 0) == Some(f);
    assert LivesIn(whole, v, f);
    hide Destroyed, Emptying, Forest, LivesIn, Up;
    OneChildLess(h, Destroyed(h, v), whole, w, f, v);
  }

  lemma OneChildLess(h: Heap, t: Heap, whole: Heap, w: nat, f: nat, v: nat)
    requires Emptying(h, whole, w, f) && Confined(h, t, whole, w, f, v) && Part(t, h)
    requires v in whole.wrappers && LivesIn(whole, v, f)
    requires v in t.wrappers && Forest(Without(t, v))
    ensures Emptying(Without(t, v), whole, w, f)
  {
    hide Forest, LivesIn, Inside;
  }

  lemma WithoutForest(t: Heap, v: nat)
    requires Forest(t) && v in t.wrappers && t.wrappers[v].handle.None?
    ensures Forest(Without(t, v)) && Part(Without(t, v), t)
  {
    PartForest(Without(t, v), t);
  }

  lemma OwnerOutside(h: Heap, w: nat, f: nat)
    requires Forest(h) && w in h.wrappers && h.wrappers[w].handle == Some(f)
    ensures !LivesIn(h, w, f)
  {
    assert Grounded(h, f);
    if h.wrappers[w].home.Some? {
      NotInsideItself(h, f);
    }
  }

  lemma DeeperInside(h: Heap, w: nat, child: nat, f: nat)
    requires w in h.wrappers && Inside(h, child, f)
    ensures LivesIn(h, w, child) ==> LivesIn(h, w, f)
  {
    if LivesIn(h, w, child) {
      InsideTransitive(h, h.wrappers[w].home.value, child, f);
    }
  }

  // A child's tree is part of f's, without f.
  lemma ChildTree(h: Heap, whole: Heap, f: nat, child: nat)
    requires Forest(h) && Part(h, whole) && f in h.owner && child in h.owner && Parent(h, child) == Some(f)
    ensures Inside(h, child, f) && !Inside(h, f, child)
    ensures forall g :: g in h.owner && Inside(h, g, child) ==> Inside(whole, g, f) && g != f
  {
    assert Up(h, f, 0) == Some(f) && Up(h, child, 0) == Some(child);
    assert Up(h, child, 1) == Some(f);
    assert Grounded(h, child);
    NotInsideItself(h, child);
    forall g | g in h.owner && Inside(h, g, child) ensures Inside(whole, g, f) && g != f {
      InsideTransitive(h, g, child, f);
      PartInside(h, whole, g, f);
    }
  }

  // The frames a destroy frees.
  ghost function Tree(h: Heap, f: nat): set<nat> {
    set g | g in h.owner && Inside(h, g, f)
  }

  ghost function TreeOf(h: Heap, w: nat): set<nat>
    requires w in h.wrappers
  {
    if h.wrappers[w].handle.Some? then Tree(h, h.wrappers[w].handle.value) else {}
  }

  lemma SmallerTree(h: Heap, whole: Heap, w: nat, f: nat, v: nat)
    requires Emptying(h, whole, w, f) && v in h.wrappers && h.wrappers[v].home == Some(f)
    requires Forest(whole) && w in whole.wrappers && whole.wrappers[w].handle == Some(f)
    ensures |TreeOf(h, v)| < |Tree(whole, f)|
  {
    assert Up(whole, f, 0) == Some(f);
    assert f in Tree(whole, f);
    if h.wrappers[v].handle.Some? {
      ChildTree(h, whole, f, h.wrappers[v].handle.value);
    }
    assert TreeOf(h, v) <= Tree(whole, f) - {f};
    SubsetSize(TreeOf(h, v), Tree(whole, f) - {f});
  }

  lemma NoElements(a: set<nat>)
    requires forall x :: x !in a
    ensures |a| == 0
  {
    assert a <= {};
  }

  lemma SubsetSize(a: set<nat>, b: set<nat>)
    requires a <= b
    ensures |a| <= |b|
  {
    assert b == a + (b - a);
    assert |b| == |a| + |b - a|;
  }

  lemma StartEmptying(h: Heap, w: nat, f: nat)
    requires Forest(h) && w in h.wrappers && h.wrappers[w].handle == Some(f)
    ensures Emptying(h, h, w, f)
  {}

  lemma StillOwned(h: Heap, whole: Heap, w: nat, f: nat)
    requires Emptying(h, whole, w, f)
    ensures Forest(h) && w in h.wrappers && h.wrappers[w].handle == Some(f) && f in h.owner
  {}

  lemma LastStep(h: Heap, g: nat, f: nat) returns (k: nat)
    requires Inside(h, g, f) && g != f
    ensures Parent(h, k) == Some(f)
  {
    var n: nat :| Up(h, g, n) == Some(f);
    k := Up(h, g, n - 1).value;
  }

  // When no wrapper is left in f, freeing f completes the destruction.
  lemma EmptiedIsDestroyed(h: Heap, whole: Heap, w: nat, f: nat)
    requires Emptying(h, whole, w, f) && Forest(whole)
    requires forall v :: v in h.wrappers ==> h.wrappers[v].home != Some(f)
    requires w in whole.wrappers && whole.wrappers[w].handle == Some(f)
    ensures Heap(h.wrappers[w := h.wrappers[w].(handle := None)], h.owner - {f}) == Destroyed(whole, w)
  {
    NothingInside(h, whole, w, f);
    hide Forest, Inside, LivesIn;
    FramesLeft(h, whole, w, f);
    WrappersLeft(h, whole, w, f);
  }

  lemma FramesLeft(h: Heap, whole: Heap, w: nat, f: nat)
    requires Part(h, whole)
    requires forall g :: g in whole.owner && g !in h.owner ==> Inside(whole, g, f)
    requires forall g :: g in h.owner ==> (Inside(whole, g, f) <==> g == f)
    requires w in whole.wrappers && whole.wrappers[w].handle == Some(f)
    ensures h.owner - {f} == Destroyed(whole, w).owner
  {
    hide Inside, LivesIn;
  }

  lemma WrappersLeft(h: Heap, whole: Heap, w: nat, f: nat)
    requires forall v :: v in h.wrappers ==>
               v in whole.wrappers && h.wrappers[v] == whole.wrappers[v] && !LivesIn(whole, v, f)
    requires forall v :: v in whole.wrappers && v !in h.wrappers ==> LivesIn(whole, v, f)
    requires w in h.wrappers && whole.wrappers[w].handle == Some(f)
    ensures h.wrappers[w := h.wrappers[w].(handle := None)] == Destroyed(whole, w).wrappers
  {
    hide Inside, LivesIn;
  }

  // What remains is outside f, except f itself.
  lemma NothingInside(h: Heap, whole: Heap, w: nat, f: nat)
    requires Emptying(h, whole, w, f)
    requires forall v :: v in h.wrappers ==> h.wrappers[v].home != Some(f)
    ensures forall g :: g in h.owner ==> (Inside(whole, g, f) <==> g == f)
    ensures forall v :: v in h.wrappers ==> v in whole.wrappers && !LivesIn(whole, v, f)
  {
    assert Up(whole, f, 0) == Some(f);
    forall g | g in h.owner ensures Inside(whole, g, f) <==> g == f {
      PartInside(h, whole, g, f);
      if Inside(h, g, f) && g != f {
        var k := LastStep(h, g, f);
      }
    }
  }

  // ---- new wrappers ----

  lemma StaysGrounded(h: Heap, t: Heap, f: nat)
    requires Forest(h) && f !in h.owner
    requires forall k :: k in h.owner ==> Parent(t, k) == Parent(h, k)
    requires t.owner.Keys <= h.owner.Keys + {f}
    requires forall k :: k !in h.owner && k != f ==> Parent(t, k) == None
    ensures forall g :: g in h.owner ==> Grounded(t, g)
  {
    forall g | g in h.owner ensures Grounded(t, g) {
      assert Grounded(h, g);
      var n: nat :| Up(h, g, n) == None;
      if m: nat :| Up(h, g, m) == Some(f) {
        PartUp(h, h, g, m);
      }
      StillGrounded(h, t, f, g, n);
    }
  }

  lemma EmptyIsForest(h: Heap, id: nat, home: Option<nat>)
    requires Forest(h) && id !in h.wrappers && (home.Some? ==> home.value in h.owner)
    ensures Forest(WithEmpty(h, id, home))
  {
    var t := WithEmpty(h, id, home);
    assert Matched(t) && Part(h, t);
    hide WithEmpty, Part;
    forall g | g in h.owner ensures Grounded(t, g) {
      assert Grounded(h, g);
      var n: nat :| Up(h, g, n) == None;
      PartUp(h, t, g, n);
    }
  }

  lemma CreatedIsForest(h: Heap, id: nat, home: Option<nat>, f: nat)
    requires Forest(h) && id !in h.wrappers && (home.Some? ==> home.value in h.owner) && f !in h.owner
    ensures Forest(Heap(h.wrappers[id := Wrapper(home, Some(f))], h.owner[f := id]))
  {
    var t := Heap(h.wrappers[id := Wrapper(home, Some(f))], h.owner[f := id]);
    StaysGrounded(h, t, f);
    assert Up(t, f, 0) == Some(f);
    assert Up(t, f, 1) == home;
    if home.Some? {
      var n: nat :| Up(t, home.value, n) == None;
      UpAdd(t, f, 1, n);
    }
  }

  // ---- the wrappers and the allocation counters at run time ----

  class Runtime {
    var wrappers: map<nat, Wrapper>
    var frames: set<nat>
    var freed: seq<nat>             // every frame freed, in order
    var liveFrames: int
    var totalAllocations: int
    ghost var owner: map<nat, nat>
    var born: nat                   // the next frame's identity

    ghost function Shape(): Heap
      reads this
    {
      Heap(wrappers, owner)
    }

    // Every frame ever allocated is alive or was freed, exactly once.
    ghost predicate Accounted()
      reads `frames, `freed, `liveFrames, `owner, `born
    {
      && owner.Keys == frames && liveFrames == |frames| && |frames| + |freed| == born
      && (forall f: nat :: f < born <==> f in frames || f in freed)
      && (forall k :: 0 <= k < |freed| ==> freed[k] !in frames)
      && (forall j, k :: 0 <= j < k < |freed| ==> freed[j] != freed[k])
    }

    ghost predicate Valid()
      reads this
    {
      Forest(Shape()) && Accounted()
    }

    constructor ()
      ensures Valid() && wrappers == map[] && owner == map[] && frames == {} && born == totalAllocations == 0
    {
      wrappers, frames, freed, liveFrames, totalAllocations := map[], {}, [], 0, 0;
      owner, born := map[], 0;
    }

    // A default-constructed wrapper, in the frame `home` or outside.
    method Empty(id: nat, home: Option<nat>)
      requires Valid() && id !in wrappers && (home.Some? ==> home.value in frames)
      modifies this
      ensures Valid() && wrappers == old(wrappers)[id := Wrapper(home, None)]
      ensures frames == old(frames) && owner == old(owner) && freed == old(freed)
      ensures liveFrames == old(liveFrames) && totalAllocations == old(totalAllocations)
    {
      EmptyIsForest(Shape(), id, home);
      wrappers := wrappers[id := Wrapper(home, None)];
    }

    // Calling a coroutine allocates its frame and yields a wrapper for it.
    method Create(id: nat, home: Option<nat>) returns (f: nat)
      requires Valid() && id !in wrappers && (home.Some? ==> home.value in frames)
      modifies this
      ensures Valid() && f !in old(frames) && frames == old(frames) + {f} && freed == old(freed)
      ensures f == old(born) && born == old(born) + 1 && owner == old(owner)[f := id]
      ensures wrappers == old(wrappers)[id := Wrapper(home, Some(f))]
      ensures liveFrames == old(liveFrames) + 1 && totalAllocations == old(totalAllocations) + 1
    {
      hide Forest, Parent, Up;
      f := born;
      CreatedIsForest(Shape(), id, home, f);
      frames := frames + {f};
      liveFrames, totalAllocations := liveFrames + 1, totalAllocations + 1;
      wrappers := wrappers[id := Wrapper(home, Some(f))];
      owner := owner[f := id];
      born := born + 1;
    }

    // operator delete.
    method Delete(f: nat)
      requires Accounted() && f in frames
      modifies `frames, `freed, `liveFrames, `owner
      ensures Accounted() && owner == old(owner) - {f} && freed == old(freed) + [f]
    {
      frames, freed, owner := frames - {f}, freed + [f], owner - {f};
      liveFrames := liveFrames - 1;
    }

    // destroy(): the frame's destruction destroys the wrappers in it, in some
    // order, then frees the frame; the handle is cleared last.
    method Destroy(w: nat)
      requires Valid() && w in wrappers
      modifies this
      ensures Valid() && Shape() == Destroyed(old(Shape()), w)
      ensures frames == old(frames) - TreeOf(old(Shape()), w) && old(freed) <= freed
      ensures totalAllocations == old(totalAllocations) && born == old(born)
      decreases |TreeOf(Shape(), w)|, 2
    {
      if wrappers[w].handle.Some? {
        var f := wrappers[w].handle.value;
        DestroyFrame(w, f);
      }
    }

    method DestroyFrame(w: nat, f: nat)
      requires Valid() && w in wrappers && wrappers[w].handle == Some(f)
      modifies this
      ensures Valid() && Shape() == Destroyed(old(Shape()), w)
      ensures old(freed) <= freed
      ensures totalAllocations == old(totalAllocations) && born == old(born)
      decreases |TreeOf(Shape(), w)|, 1
    {
      hide Forest, Emptying, Destroyed;
      ghost var whole := Shape();
      DestroyMembers(w, f);
      StillOwned(Shape(), whole, w, f);
      EmptiedIsDestroyed(Shape(), whole, w, f);
      DestroyedIsForest(whole, w);
      Delete(f);
      wrappers := wrappers[w := wrappers[w].(handle := None)];
    }

    method DestroyMembers(w: nat, f: nat)
      requires Valid() && w in wrappers && wrappers[w].handle == Some(f)
      modifies this
      ensures Emptying(Shape(), old(Shape()), w, f) && Accounted()
      ensures forall v :: v in wrappers ==> wrappers[v].home != Some(f)
      ensures old(freed) <= freed
      ensures totalAllocations == old(totalAllocations) && born == old(born)
      decreases |TreeOf(Shape(), w)|, 0
    {
      hide Forest, Emptying, Accounted, Destroyed;
      ghost var whole := Shape();
      StartEmptying(whole, w, f);
      while exists v :: v in wrappers && wrappers[v].home == Some(f)
        invariant Emptying(Shape(), whole, w, f) && Accounted()
        invariant old(freed) <= freed && born == old(born) && totalAllocations == old(totalAllocations)
        decreases |wrappers.Keys|
      {
        ghost var before := wrappers.Keys;
        var v :| v in wrappers && wrappers[v].home == Some(f);
        StillOwned(Shape(), whole, w, f);
        SmallerTree(Shape(), whole, w, f, v);
        ChildDestroyed(Shape(), whole, w, f, v);
        DestroyedIsForest(Shape(), v);
        Destroy(v);
        wrappers := wrappers - {v};
        SubsetSize(wrappers.Keys, before - {v});
      }
    }

    // The destructor.
    method Drop(w: nat)
      requires Valid() && w in wrappers
      modifies this
      ensures Valid() && Shape() == Without(Destroyed(old(Shape()), w), w)
      ensures old(freed) <= freed && totalAllocations == old(totalAllocations) && born == old(born)
    {
      DestroyedIsForest(Shape(), w);
      Destroy(w);
      WithoutForest(Shape(), w);
      hide Forest, Destroyed;
      wrappers := wrappers - {w};
    }

    // std::exchange(other.handle_, {}) into an empty wrapper.
    method Take(dst: nat, src: nat)
      requires Valid() && dst in wrappers && src in wrappers && dst != src && wrappers[dst].handle.None?
      requires !InTreeOf(Shape(), dst, src)
      modifies `wrappers, `owner
      ensures Valid() && Shape() == Taken(old(Shape()), dst, src)
    {
      ghost var target := Taken(Shape(), dst, src);
      TakenIsForest(Shape(), dst, src);
      TakenOwners(Shape(), dst, src);
      hide Forest, InTreeOf, Matched, Parent, Up, Taken;
      var handle := wrappers[src].handle;
      wrappers := wrappers[src := wrappers[src].(handle := None)][dst := wrappers[dst].(handle := handle)];
      if handle.Some? {
        owner := owner[handle.value := dst];
      }
      assert Shape() == target;
    }

    // Move construction: the new wrapper has src's frame and src has none.
    method MoveConstruct(id: nat, home: Option<nat>, src: nat)
      requires Valid() && id !in wrappers && (home.Some? ==> home.value in frames) && src in wrappers
      requires wrappers[src].handle.Some? && home.Some? ==> !Inside(Shape(), home.value, wrappers[src].handle.value)
      modifies this
      ensures Valid() && frames == old(frames) && freed == old(freed)
      ensures wrappers ==
              old(wrappers)[src := old(wrappers)[src].(handle := None)][id := Wrapper(home, old(wrappers)[src].handle)]
      ensures liveFrames == old(liveFrames) && totalAllocations == old(totalAllocations)
    {
      EmptyThenTake(Shape(), id, home, src);
      hide Forest, Accounted, InTreeOf, Taken, Inside, Matched, Parent, Up;
      ghost var before := WithEmpty(Shape(), id, home);
      Empty(id, home);
      assert Shape() == before;
      Take(id, src);
    }

    // Move assignment, where it is safe.
    method MoveAssign(dst: nat, src: nat)
      requires Valid() && dst in wrappers && src in wrappers && Safe(Shape(), dst, src)
      modifies this
      ensures Valid() && MoveAssigned(old(Shape()), dst, src) == Some(Shape())
      ensures old(freed) <= freed && totalAllocations == old(totalAllocations)
    {
      hide Forest, Accounted;
      if dst != src {
        StillThere(Shape(), dst, src);
        Destroy(dst);
        Take(dst, src);
      }
    }

    // Every wrapper outside the frames goes out of scope, in any order: then
    // every frame ever allocated has been freed, once, and the counter is back at 0.
    method EndScopes()
      requires Valid()
      modifies this
      ensures Valid() && liveFrames == 0 && |frames| == 0
      ensures |freed| == born == old(born)
      ensures forall f: nat :: f < born <==> f in freed
    {
      while exists w :: w in wrappers && wrappers[w].home.None?
        invariant Valid() && born == old(born)
        decreases |wrappers.Keys|
      {
        var w :| w in wrappers && wrappers[w].home.None?;
        ghost var before := wrappers.Keys;
        DestroyedIsForest(Shape(), w);
        Drop(w);
        SubsetSize(wrappers.Keys, before - {w});
      }
      NothingLeaks(Shape());
      NoElements(frames);
    }

    // frame_stats::reset(): the counters stay right exactly when no frame is alive.
    method Reset()
      requires Valid()
      modifies `liveFrames, `totalAllocations
      ensures liveFrames == 0 && totalAllocations == 0
      ensures Valid() <==> |frames| == 0
    {
      liveFrames, totalAllocations := 0, 0;
    }
  }

  lemma TakenOwners(h: Heap, dst: nat, src: nat)
    requires Matched(h) && dst in h.wrappers && src in h.wrappers && dst != src && h.wrappers[dst].handle.None?
    ensures Taken(h, dst, src).owner.Keys == h.owner.Keys
    ensures Taken(h, dst, src).wrappers ==
              h.wrappers[src := h.wrappers[src].(handle := None)]
                        [dst := h.wrappers[dst].(handle := h.wrappers[src].handle)]
    ensures h.wrappers[src].handle.None? ==> Taken(h, dst, src).owner == h.owner
    ensures h.wrappers[src].handle.Some? ==> Taken(h, dst, src).owner == h.owner[h.wrappers[src].handle.value := dst]
  {}

  // Two coroutine calls, the second inside the first one's frame, make the unsafe pair.
  method MakeNested() returns (r: Runtime)
    ensures fresh(r) && r.Valid() && r.Shape() == Nested()
  {
    r := new Runtime();
    hide Forest, Runtime.Accounted;
    var outer := r.Create(0, None);
    var inner := r.Create(1, Some(outer));
  }

  lemma StillThere(h: Heap, dst: nat, src: nat)
    requires Forest(h) && dst in h.wrappers && src in h.wrappers && dst != src && Safe(h, dst, src)
    ensures var t := Destroyed(h, dst);
            && dst in t.wrappers && src in t.wrappers && t.wrappers[dst].handle.None?
            && !InTreeOf(t, dst, src)
  {
    DestroyedIsForest(h, dst);
    var t := Destroyed(h, dst);
    if h.wrappers[src].handle.Some? && h.wrappers[dst].home.Some? {
      PartInside(t, h, h.wrappers[dst].home.value, h.wrappers[src].handle.value);
    }
  }

  function WithEmpty(h: Heap, id: nat, home: Option<nat>): Heap {
    h.(wrappers := h.wrappers[id := Wrapper(home, None)])
  }

  lemma EmptyThenTake(h: Heap, id: nat, home: Option<nat>, src: nat)
    requires Forest(h) && id !in h.wrappers && (home.Some? ==> home.value in h.owner) && src in h.wrappers
    requires h.wrappers[src].handle.Some? && home.Some? ==> !Inside(h, home.value, h.wrappers[src].handle.value)
    ensures var t := WithEmpty(h, id, home);
            && !InTreeOf(t, id, src)
            && Taken(t, id, src).wrappers ==
                 h.wrappers[src := h.wrappers[src].(handle := None)][id := Wrapper(home, h.wrappers[src].handle)]
  {
    assert Forest(WithEmpty(h, id, home)) by {
      EmptyIsForest(h, id, home);
    }
    var t := WithEmpty(h, id, home);
    if home.Some? && h.wrappers[src].handle.Some? {
      PartInside(h, t, home.value, h.wrappers[src].handle.value);
    }
    hide Inside, Parent, Up;
    TakenOwners(t, id, src);
    EmptyBetween(h.wrappers, id, home, src);
  }

  lemma EmptyBetween(ws: map<nat, Wrapper>, id: nat, home: Option<nat>, src: nat)
    requires id !in ws && src in ws
    ensures ws[id := Wrapper(home, None)][src := ws[src].(handle := None)][id := Wrapper(home, ws[src].handle)] ==
            ws[src := ws[src].(handle := None)][id := Wrapper(home, ws[src].handle)]
  {}
}

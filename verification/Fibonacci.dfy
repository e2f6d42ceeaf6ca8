// Two Fibonacci implementations: the C++ generator, whose 64-bit sums wrap
// around, and the Rust loop, whose sums saturate.
module Fibonacci {

  const WORD: nat := 0x1_0000_0000_0000_0000
  const MAX: nat := WORD - 1

  type U64 = n: int | 0 <= n < WORD

  function Fib(n: nat): nat {
    if n < 2 then n else Fib(n - 1) + Fib(n - 2)
  }

  function WrappingAdd(a: U64, b: U64): U64 {
    (a + b) % WORD
  }

  function SaturatingAdd(a: U64, b: U64): U64 {
    if a + b < WORD then a + b else MAX
  }

  function Min(a: nat, b: nat): nat {
    if a < b then a else b
  }

  // ---- Rust: fibonacci(nth) ----

  method RustFibonacci(nth: nat) returns (result: U64)
    ensures result == Min(Fib(nth), MAX)
  {
    var prev: U64, curr: U64 := 0, 1;
    for i := 0 to nth
      invariant prev == Min(Fib(i), MAX) && curr == Min(Fib(i + 1), MAX)
    {
      assert Fib(i + 2) == Fib(i + 1) + Fib(i);
      var next := SaturatingAdd(prev, curr);
      prev := curr;
      curr := next;
    }
    result := prev;
  }

  // ---- C++: generator<uint64_t> fibonacci(count) ----

  datatype Point = AtStart | AtYield | AtEnd

  // The coroutine frame and the generator that owns it.
  class Generator {
    const count: nat
    var a: U64
    var b: U64
    var i: nat
    var current: U64
    var point: Point

    // What the frame holds once it has yielded its i-th value.
    ghost predicate Valid()
      reads this
    {
      && i <= count
      && a == Fib(i) % WORD && b == Fib(i + 1) % WORD
      && (point == AtStart ==> i == 0)
      && (point == AtYield ==> i < count && current == a)
      && (point == AtEnd ==> i == count)
    }

    // How many values next() has delivered.
    ghost function Delivered(): nat
      reads this
    {
      match point
      case AtStart => 0
      case AtYield => i + 1
      case AtEnd => i
    }

    constructor (count: nat)
      ensures Valid() && this.count == count && Delivered() == 0 && point == AtStart
    {
      this.count := count;
      a, b, i, current, point := 0, 1, 0, 0, AtStart;
    }

    // handle.resume(): from the last suspension to the next co_yield or the end.
    method Resume()
      requires Valid() && point != AtEnd
      modifies this
      ensures Valid()
      ensures Delivered() == Min(old(Delivered()) + 1, count)
      ensures point == AtEnd <==> old(Delivered()) == count
      ensures point != AtEnd ==> point == AtYield
    {
      if point == AtYield {
        WrappedSum(i);
        a, b := b, WrappingAdd(a, b);
        i := i + 1;
      }
      if i < count {
        current := a;
        point := AtYield;
      } else {
        point := AtEnd;
      }
    }

    method Next() returns (more: bool)
      requires Valid()
      modifies this
      ensures Valid()
      ensures more <==> old(Delivered()) < count
      ensures more ==> point == AtYield && Delivered() == old(Delivered()) + 1
                       && current == Fib(old(Delivered())) % WORD
      ensures !more ==> Delivered() == count && point == AtEnd
    {
      if point == AtEnd {
        return false;
      }
      Resume();
      more := point != AtEnd;
    }
  }

  lemma WrappedSum(i: nat)
    ensures WrappingAdd(Fib(i) % WORD, Fib(i + 1) % WORD) == Fib(i + 2) % WORD
  {
    WrapOnce(Fib(i), Fib(i + 1));
  }

  lemma WrapOnce(x: nat, y: nat)
    ensures (x % WORD + y % WORD) % WORD == (x + y) % WORD
  {
    var p, q := x / WORD, y / WORD;
    assert x == p * WORD + x % WORD && y == q * WORD + y % WORD;
    assert x + y == (p + q) * WORD + (x % WORD + y % WORD);
  }

  // Draining the generator gives every Fib(k) modulo 2^64, k below count, in order.
  method Drain(count: nat) returns (values: seq<U64>)
    ensures |values| == count
    ensures forall k :: 0 <= k < count ==> values[k] == Fib(k) % WORD
  {
    var gen := new Generator(count);
    values := [];
    var more := gen.Next();
    while more
      invariant fresh(gen) && gen.Valid() && gen.count == count
      invariant more ==> gen.point == AtYield && gen.Delivered() == |values| + 1 && gen.current == Fib(|values|) % WORD
      invariant !more ==> |values| == count
      invariant forall k :: 0 <= k < |values| ==> values[k] == Fib(k) % WORD
      decreases count - |values|, more
    {
      values := values + [gen.current];
      more := gen.Next();
    }
  }

  // ---- where the two agree with the exact numbers ----

  lemma JumpTen(n: nat)
    ensures Fib(n + 10) == 34 * Fib(n) + 55 * Fib(n + 1)
    ensures Fib(n + 11) == 55 * Fib(n) + 89 * Fib(n + 1)
  {
    JumpFive(n);
    JumpFive(n + 5);
  }

  lemma JumpFive(n: nat)
    ensures Fib(n + 5) == 3 * Fib(n) + 5 * Fib(n + 1)
    ensures Fib(n + 6) == 5 * Fib(n) + 8 * Fib(n + 1)
  {
    assert Fib(n + 2) == Fib(n + 1) + Fib(n);
    assert Fib(n + 3) == Fib(n + 2) + Fib(n + 1);
    assert Fib(n + 4) == Fib(n + 3) + Fib(n + 2);
    assert Fib(n + 5) == Fib(n + 4) + Fib(n + 3);
    assert Fib(n + 6) == Fib(n + 5) + Fib(n + 4);
  }

  // The last exact term and the first that needs a 65th bit.
  lemma LastExact()
    ensures Fib(93) == 12200160415121876738
    ensures Fib(94) == 19740274219868223167
  {
    hide Fib;
    assert Fib(0) == 0 && Fib(1) == 1 by {
      Start();
    }
    JumpTen(0);
    assert Fib(10) == 55 && Fib(11) == 89;
    JumpTen(10);
    assert Fib(20) == 6765 && Fib(21) == 10946;
    JumpTen(20);
    assert Fib(30) == 832040 && Fib(31) == 1346269;
    JumpTen(30);
    assert Fib(40) == 102334155 && Fib(41) == 165580141;
    JumpTen(40);
    assert Fib(50) == 12586269025 && Fib(51) == 20365011074;
    JumpTen(50);
    assert Fib(60) == 1548008755920 && Fib(61) == 2504730781961;
    JumpTen(60);
    assert Fib(70) == 190392490709135 && Fib(71) == 308061521170129;
    JumpTen(70);
    assert Fib(80) == 23416728348467685 && Fib(81) == 37889062373143906;
    JumpTen(80);
    assert Fib(90) == 2880067194370816120 && Fib(91) == 4660046610375530309;
    JumpThree(90);
  }

  lemma Start()
    ensures Fib(0) == 0 && Fib(1) == 1
  {}

  lemma JumpThree(n: nat)
    ensures Fib(n + 3) == Fib(n) + 2 * Fib(n + 1)
    ensures Fib(n + 4) == 2 * Fib(n) + 3 * Fib(n + 1)
  {
    assert Fib(n + 2) == Fib(n + 1) + Fib(n);
    assert Fib(n + 3) == Fib(n + 2) + Fib(n + 1);
    assert Fib(n + 4) == Fib(n + 3) + Fib(n + 2);
  }

  lemma {:induction false} FibMonotone(m: nat, n: nat)
    requires m <= n
    ensures Fib(m) <= Fib(n)
    decreases n - m
  {
    if m < n {
      FibMonotone(m, n - 1);
      if n == 1 {
      } else {
        assert Fib(n) == Fib(n - 1) + Fib(n - 2);
      }
    }
  }

  // Both are exact for n <= 93 and neither is for any larger n.
  lemma ExactUpTo93(n: nat)
    ensures Fib(n) % WORD == Fib(n) <==> n <= 93
    ensures Min(Fib(n), MAX) == Fib(n) <==> n <= 93
  {
    hide Fib;
    LastExact();
    if n <= 93 {
      FibMonotone(n, 93);
    } else {
      FibMonotone(94, n);
    }
    assert Fib(n) < WORD <==> n <= 93;
  }
}

// Number theory behind the prime sieve: what it means to pass a list of
// filters, and why the first number that passes all earlier primes is the
// next prime.
module Primes {

  // No product of two smaller numbers.
  ghost predicate IsPrime(n: int) {
    n >= 2 && forall d, k :: 2 <= d && 2 <= k ==> d * k != n
  }

  ghost predicate Divides(d: int, n: int) {
    exists k: int :: d * k == n
  }

  // The test one filter process makes: `value % prime != 0`.
  predicate Passes(v: int, p: int)
    requires p != 0
  {
    v % p != 0
  }

  // The test keeps back exactly the multiples.
  lemma PassesIffNoMultiple(v: int, p: int)
    requires p >= 1
    ensures Passes(v, p) <==> !Divides(p, v)
  {
    if Divides(p, v) {
      var k: int :| p * k == v;
      MultipleHasNoRemainder(p, k);
    }
    if !Passes(v, p) {
      assert p * (v / p) == v;
    }
  }

  // Being prime, by the tests a filter makes.
  predicate PassesAllBelow(n: int) {
    n >= 2 && forall d :: 2 <= d < n ==> Passes(n, d)
  }

  lemma PrimeIffPassesAllBelow(n: int)
    ensures IsPrime(n) <==> PassesAllBelow(n)
  {
    if IsPrime(n) {
      forall d | 2 <= d < n ensures Passes(n, d) {
        PassesIffNoMultiple(n, d);
        if k: int :| d * k == n {
          CofactorBounds(d, k, n);
        }
      }
    }
    if PassesAllBelow(n) {
      forall d, k | 2 <= d && 2 <= k ensures d * k != n {
        if d * k == n {
          CofactorBounds(d, k, n);
          PassesIffNoMultiple(n, d);
        }
      }
    }
  }

  lemma CofactorBounds(d: int, k: int, n: int)
    requires d * k == n && d >= 2 && n >= 1
    ensures k >= 1 && (d < n ==> k >= 2) && (k >= 2 ==> d < n)
  {
    ScaleBounds(d, k);
  }

  // All primes below n, ascending.
  ghost function PrimesBelow(n: int): seq<int> {
    if n <= 2 then []
    else PrimesBelow(n - 1) + (if IsPrime(n - 1) then [n - 1] else [])
  }

  predicate Positive(ps: seq<int>) {
    forall i :: 0 <= i < |ps| ==> ps[i] >= 2
  }

  // v is a multiple of none of the numbers in ps.
  predicate Survives(v: int, ps: seq<int>)
    requires Positive(ps)
  {
    forall i :: 0 <= i < |ps| ==> Passes(v, ps[i])
  }

  // Every filter's prime is the least number >= 2 that all filters before it let through.
  predicate LeastSurvivor(v: int, ps: seq<int>)
    requires Positive(ps)
  {
    && v >= 2
    && Survives(v, ps)
    && forall w :: 2 <= w < v ==> !Survives(w, ps)
  }

  predicate SieveOrder(ps: seq<int>) {
    && Positive(ps)
    && forall i :: 0 <= i < |ps| ==> LeastSurvivor(ps[i], ps[..i])
  }

  lemma DividesTrans(n: int, m: int, d: int)
    requires m >= 1 && d >= 1
    requires n % m == 0 && m % d == 0
    ensures n % d == 0
  {
    var a := n / m;
    var b := m / d;
    assert n == m * a && m == d * b;
    assert n == d * (b * a);
    MultipleHasNoRemainder(d, b * a);
  }

  lemma MultipleHasNoRemainder(d: int, k: int)
    requires d >= 1
    ensures (d * k) % d == 0
  {
    var q, r := (d * k) / d, (d * k) % d;
    assert d * k == d * q + r && 0 <= r < d;
    assert r == d * (k - q);
    ScaleBounds(d, k - q);
  }

  lemma ScaleBounds(d: int, m: int)
    requires d >= 1
    ensures m >= 1 ==> d * m >= d
    ensures m <= -1 ==> d * m <= -d
  {}

  // Every number from 2 on has a prime divisor.
  lemma {:induction false} PrimeDivisor(n: int) returns (p: int)
    requires n >= 2
    ensures 2 <= p <= n && IsPrime(p) && !Passes(n, p)
    decreases n
  {
    PrimeIffPassesAllBelow(n);
    if IsPrime(n) {
      p := n;
    } else {
      var d :| 2 <= d < n && !Passes(n, d);
      p := PrimeDivisor(d);
      DividesTrans(n, d, p);
    }
  }

  // Membership and order of PrimesBelow.
  lemma {:induction false} PrimesBelowMembers(n: int)
    ensures forall v :: v in PrimesBelow(n) <==> v < n && IsPrime(v)
    ensures forall i, j :: 0 <= i < j < |PrimesBelow(n)| ==> PrimesBelow(n)[i] < PrimesBelow(n)[j]
    ensures |PrimesBelow(n)| <= if n <= 2 then 0 else n - 2
    decreases if n <= 2 then 0 else n
  {
    assert forall v :: IsPrime(v) ==> v >= 2;
    hide IsPrime;
    if n > 2 {
      PrimesBelowMembers(n - 1);
      var ps := PrimesBelow(n - 1);
      assert PrimesBelow(n) == if IsPrime(n - 1) then ps + [n - 1] else ps + [];
      hide PrimesBelow;
      AppendLarger(ps, n - 1);
    }
  }

  lemma AppendLarger(ps: seq<int>, m: int)
    requires forall v :: v in ps ==> v < m
    requires forall i, j :: 0 <= i < j < |ps| ==> ps[i] < ps[j]
    ensures forall v :: v in ps + [m] <==> v in ps || v == m
    ensures forall i, j :: 0 <= i < j < |ps + [m]| ==> (ps + [m])[i] < (ps + [m])[j]
  {
    assert forall i :: 0 <= i < |ps| ==> ps[i] in ps;
  }

  // No primes in [m, n) leaves the list unchanged.
  lemma {:induction false} PrimesBelowGap(m: int, n: int)
    requires m <= n
    requires forall v :: m <= v < n ==> !IsPrime(v)
    ensures PrimesBelow(n) == PrimesBelow(m)
    decreases n - m
  {
    if m < n {
      PrimesBelowGap(m, n - 1);
    }
  }

  lemma OwnRemainders(v: int, p: int)
    requires v >= 2 && p >= 2
    ensures v == p ==> !Passes(v, p)
    ensures v < p ==> Passes(v, p)
  {}

  // The least number that passes a list has no proper divisor, because a
  // divisor would pass the list too.
  lemma LeastSurvivorIsPrime(v: int, ps: seq<int>)
    requires Positive(ps) && LeastSurvivor(v, ps)
    ensures IsPrime(v)
  {
    forall d | 2 <= d < v ensures Passes(v, d) {
      assert !Survives(d, ps);
      var i :| 0 <= i < |ps| && !Passes(d, ps[i]);
      if !Passes(v, d) {
        DividesTrans(v, d, ps[i]);
      }
    }
    PrimeIffPassesAllBelow(v);
  }

  // A prime that fails the list is in it.
  lemma FailingPrimeIsListed(w: int, ps: seq<int>)
    requires Positive(ps) && IsPrime(w) && !Survives(w, ps)
    ensures w in ps
  {
    PrimeIffPassesAllBelow(w);
    var i :| 0 <= i < |ps| && !Passes(w, ps[i]);
    OwnRemainders(w, ps[i]);
    assert ps[i] == w;
  }

  // The least survivor of a sieve list lies beyond everything in the list.
  lemma LeastSurvivorIsBeyond(v: int, ps: seq<int>, k: nat)
    requires SieveOrder(ps) && LeastSurvivor(v, ps) && k < |ps|
    ensures v > ps[k]
  {
    assert LeastSurvivor(ps[k], ps[..k]);
    assert Survives(v, ps[..k]);
    assert Passes(v, ps[k]);
    OwnRemainders(v, ps[k]);
  }

  lemma SieveOrderAscends(ps: seq<int>)
    requires SieveOrder(ps)
    ensures forall i, j :: 0 <= i < j < |ps| ==> ps[i] < ps[j]
  {
    forall i, j | 0 <= i < j < |ps| ensures ps[i] < ps[j] {
      SieveOrderPrefix(ps, j);
      assert LeastSurvivor(ps[j], ps[..j]);
      LeastSurvivorIsBeyond(ps[j], ps[..j], i);
    }
  }

  // A list built by always taking the least survivor is the list of the first primes.
  lemma {:induction false} SieveOrderIsPrimes(ps: seq<int>)
    requires SieveOrder(ps)
    ensures ps != [] ==> ps == PrimesBelow(ps[|ps| - 1] + 1)
    decreases |ps|
  {
    if ps != [] {
      var k := |ps| - 1;
      SieveOrderPrefix(ps, k);
      SieveOrderAscends(ps);
      SieveOrderIsPrimes(ps[..k]);
      assert LeastSurvivor(ps[k], ps[..k]);
      NoPrimeBetween(ps[k], ps[..k]);
      assert ps == ps[..k] + [ps[k]];
    }
  }

  lemma SieveOrderPrefix(ps: seq<int>, k: nat)
    requires SieveOrder(ps) && k <= |ps|
    ensures SieveOrder(ps[..k])
  {
    forall i | 0 <= i < k ensures LeastSurvivor(ps[..k][i], ps[..k][..i]) {
      assert ps[..k][..i] == ps[..i];
    }
  }

  lemma NoPrimeBetween(v: int, init: seq<int>)
    requires SieveOrder(init) && LeastSurvivor(v, init)
    requires init != [] ==> init[|init| - 1] < v && init == PrimesBelow(init[|init| - 1] + 1)
    ensures PrimesBelow(v + 1) == init + [v]
  {
    LeastSurvivorIsPrime(v, init);
    var m := if init == [] then 2 else init[|init| - 1] + 1;
    PrimesBelowMembers(m);
    forall w | m <= w < v ensures !IsPrime(w) {
      if IsPrime(w) {
        FailingPrimeIsListed(w, init);
      }
    }
    PrimesBelowGap(m, v);
  }

  // Once nothing below n survives, the list holds every prime below n.
  lemma NothingLeftIsComplete(ps: seq<int>, n: int)
    requires SieveOrder(ps)
    requires forall i :: 0 <= i < |ps| ==> ps[i] < n
    requires forall w :: 2 <= w < n ==> !Survives(w, ps)
    ensures ps == PrimesBelow(n)
  {
    SieveOrderIsPrimes(ps);
    SieveOrderAscends(ps);
    var m := if ps == [] then 2 else ps[|ps| - 1] + 1;
    if m <= n {
      forall w | m <= w < n ensures !IsPrime(w) {
        if IsPrime(w) {
          FailingPrimeIsListed(w, ps);
        }
      }
      PrimesBelowGap(m, n);
    }
  }

  lemma SieveOrderSize(ps: seq<int>, n: int)
    requires SieveOrder(ps) && n >= 2
    requires forall i :: 0 <= i < |ps| ==> ps[i] < n
    ensures |ps| <= n - 2
  {
    SieveOrderIsPrimes(ps);
    if ps != [] {
      PrimesBelowMembers(ps[|ps| - 1] + 1);
    }
  }
}

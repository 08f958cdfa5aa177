/** common/shortcut.go: the power-of-two helpers on Go's 64-bit `int`. */
module PowersOfTwo {
  import opened Common

  function Pow2(k: nat): (p: int)
    ensures p >= 1
  {
    if k == 0 then 1 else 2 * Pow2(k - 1)
  }

  ghost predicate IsPow2(n: int) {
    exists k: nat :: n == Pow2(k)
  }

  lemma {:induction false} Pow2Monotone(j: nat, k: nat)
    requires j < k
    ensures 2 * Pow2(j) <= Pow2(k)
  {
    if j + 1 < k {
      Pow2Monotone(j, k - 1);
    }
  }

  lemma {:induction false} Pow2Sum(j: nat, k: nat)
    ensures Pow2(j + k) == Pow2(j) * Pow2(k)
  {
    if j != 0 {
      Pow2Sum(j - 1, k);
    }
  }

  lemma WordSizes()
    ensures Pow2(62) == TWO62 && Pow2(63) == TWO63 && Pow2(64) == TWO64
  {
    assert Pow2(8) == 256;
    Pow2Sum(8, 8);
    Pow2Sum(16, 16);
    Pow2Sum(32, 32);
    assert Pow2(64) == 2 * Pow2(63) == 4 * Pow2(62);
  }

  lemma HalfOfPow2(n: int)
    requires IsPow2(n) && n > 1
    ensures n % 2 == 0 && IsPow2(n / 2) && 1 <= n / 2
  {
    var k: nat :| n == Pow2(k);
    assert n / 2 == Pow2(k - 1);
  }

  lemma DoubleOfPow2(n: int)
    requires IsPow2(n)
    ensures IsPow2(2 * n)
  {
    var k: nat :| n == Pow2(k);
    assert 2 * n == Pow2(k + 1);
  }

  lemma OneIsPow2()
    ensures IsPow2(1)
  {
    assert Pow2(0) == 1;
  }

  // ----- IsPowerOf2: the bit test -----

  /** Bitwise AND of two non-negative numbers. */
  function And(a: nat, b: nat): nat {
    if a == 0 || b == 0 then 0 else (a % 2) * (b % 2) + 2 * And(a / 2, b / 2)
  }

  /** `n != 0 && n&(n-1) == 0` on two's complement words. */
  predicate IsPowerOf2(n: int64) {
    n != 0 && And(n % TWO64, (n - 1) % TWO64) == 0
  }

  lemma {:induction false} AndSelf(a: nat)
    ensures And(a, a) == a
  {
    if a != 0 {
      AndSelf(a / 2);
    }
  }

  lemma {:induction false} AndPredecessor(n: nat)
    requires n >= 1
    ensures And(n, n - 1) == 0 <==> IsPow2(n)
  {
    if n == 1 {
      OneIsPow2();
    } else if n % 2 == 1 {
      AndSelf(n / 2);
      if IsPow2(n) {
        HalfOfPow2(n);
      }
    } else {
      assert (n - 1) / 2 == n / 2 - 1;
      AndPredecessor(n / 2);
      if IsPow2(n / 2) {
        DoubleOfPow2(n / 2);
      }
      if IsPow2(n) {
        HalfOfPow2(n);
      }
    }
  }

  /** The bit test is exact on every positive `int`; below that it accepts the
      one word whose only set bit is the sign. */
  lemma BitTestExact(n: int64)
    ensures IsPowerOf2(n) <==> IsPow2(n) || n == -TWO63
  {
    hide And, IsPow2;
    if n >= 1 {
      AndPredecessor(n);
    } else if n < 0 {
      var u := n + TWO64;
      assert n % TWO64 == u && (n - 1) % TWO64 == u - 1;
      AndPredecessor(u);
      UpperWords(u);
      NoNegativePower(n);
    } else {
      NoNegativePower(n);
    }
  }

  lemma NoNegativePower(n: int)
    ensures n <= 0 ==> !IsPow2(n)
  {
  }

  /** In the upper half of the words only the sign bit is a power of two. */
  lemma UpperWords(u: nat)
    requires TWO63 <= u < TWO64
    ensures IsPow2(u) <==> u == TWO63
  {
    WordSizes();
    if IsPow2(u) {
      var k: nat :| u == Pow2(k);
      if k < 63 {
        Pow2Monotone(k, 63);
      } else if 63 < k {
        Pow2Monotone(63, k);
      }
    }
  }

  // ----- NextPowerOf2 and LastPowerOf2: the search loops -----

  /** `1 << i` on a 64-bit signed word: the sign bit at 63, nothing beyond. */
  function ShiftOne(i: nat): int64
    ensures i < 63 ==> ShiftOne(i) == Pow2(i)
  {
    WordSizes();
    if i < 63 then (Pow2Monotone(i, 63); Pow2(i)) else if i == 63 then -TWO63 else 0
  }

  lemma ShiftOneAtMost(i: nat)
    ensures ShiftOne(i) <= TWO62
  {
    WordSizes();
    if i < 62 {
      Pow2Monotone(i, 62);
    }
  }

  /** The first loop can stop exactly when n <= 2^62. */
  lemma NextSearchStops(n: int64)
    ensures (exists i: nat :: ShiftOne(i) >= n) <==> n <= TWO62
  {
    WordSizes();
    assert ShiftOne(62) == TWO62;
    forall i: nat
      ensures ShiftOne(i) <= TWO62
    {
      ShiftOneAtMost(i);
    }
  }

  /** The second loop can stop exactly when n < 2^62. */
  lemma LastSearchStops(n: int64)
    ensures (exists i: nat :: ShiftOne(i) > n) <==> n < TWO62
  {
    WordSizes();
    assert ShiftOne(62) == TWO62;
    forall i: nat
      ensures ShiftOne(i) <= TWO62
    {
      ShiftOneAtMost(i);
    }
  }

  /** The least power of two that is at least `n`, as a function. */
  function CeilPow2(n: nat): (m: nat)
    ensures m >= 1
  {
    if n <= 1 then 1 else 2 * CeilPow2((n + 1) / 2)
  }

  lemma {:induction false} CeilPow2Least(n: nat)
    ensures IsPow2(CeilPow2(n)) && n <= CeilPow2(n)
    ensures forall p :: IsPow2(p) && n <= p ==> CeilPow2(n) <= p
  {
    OneIsPow2();
    if n > 1 {
      CeilPow2Least((n + 1) / 2);
      DoubleOfPow2(CeilPow2((n + 1) / 2));
      forall p | IsPow2(p) && n <= p
        ensures CeilPow2(n) <= p
      {
        HalfOfPow2(p);
      }
    } else {
      forall p | IsPow2(p)
        ensures 1 <= p
      {
      }
    }
  }

  /** The least power of two that is at least `n`. Above 2^62 the source's loop
      never ends, see NextSearchStops. */
  method NextPowerOf2(n: int64) returns (m: int64)
    requires n <= TWO62
    ensures IsPow2(m) && n <= m <= TWO62
    ensures forall p :: IsPow2(p) && n <= p ==> m <= p
  {
    WordSizes();
    var i := 0;
    while true
      invariant 0 <= i <= 62
      invariant forall j :: 0 <= j < i ==> Pow2(j) < n
      decreases 62 - i
    {
      m := ShiftOne(i);
      if m >= n {
        ShiftOneAtMost(i);
        forall p | IsPow2(p) && n <= p
          ensures m <= p
        {
          var k: nat :| p == Pow2(k);
          if i < k {
            Pow2Monotone(i, k);
          }
        }
        return;
      }
      i := i + 1;
    }
  }

  /** The greatest power of two that is at most `n`, and 0 when there is none.
      From 2^62 on the source's loop never ends, see LastSearchStops. */
  method LastPowerOf2(n: int64) returns (l: int64)
    requires n < TWO62
    ensures n < 1 ==> l == 0
    ensures n >= 1 ==> IsPow2(l) && l <= n < 2 * l
    ensures forall p :: IsPow2(p) && p <= n ==> p <= l
  {
    WordSizes();
    var i := 0;
    l := 0;
    while true
      invariant 0 <= i <= 62
      invariant forall j :: 0 <= j < i ==> Pow2(j) <= n
      invariant l == if i == 0 then 0 else Pow2(i - 1)
      decreases 62 - i
    {
      var m := ShiftOne(i);
      if m > n {
        forall p | IsPow2(p) && p <= n
          ensures p <= l
        {
          var k: nat :| p == Pow2(k);
          if i < k {
            Pow2Monotone(i, k);
          } else if k < i - 1 {
            Pow2Monotone(k, i - 1);
          }
        }
        break;
      }
      l := m;
      i := i + 1;
    }
  }
}

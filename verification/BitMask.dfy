/** Bitwise AND of non-negative integers, and the power-of-two masks both ring buffers index with. */
module BitMask {

  function And(a: nat, b: nat): nat {
    if a == 0 || b == 0 then 0
    else (if a % 2 == 1 && b % 2 == 1 then 1 else 0) + 2 * And(a / 2, b / 2)
  }

  function Pow2(k: nat): (p: nat)
    ensures p > 0
  {
    if k == 0 then 1 else 2 * Pow2(k - 1)
  }

  lemma {:induction false} AndSelf(a: nat)
    ensures And(a, a) == a
  {
    if a != 0 { AndSelf(a / 2); }
  }

  /** The constructor's check `size & (size - 1) == 0`. Anding 0 gives 0, and two negative numbers a negative one. */
  predicate SizeTest(size: int) {
    size == 0 || (size > 0 && And(size, size - 1) == 0)
  }

  /** The check accepts exactly 0 and the powers of two. */
  lemma SizeTestIff(size: int)
    ensures SizeTest(size) <==> size == 0 || exists k: nat :: size == Pow2(k)
  {
    if size > 0 { PowerOfTwoTest(size); }
  }

  lemma {:induction false} PowerOfTwoTest(size: nat)
    requires size > 0
    ensures And(size, size - 1) == 0 <==> exists k: nat :: size == Pow2(k)
  {
    if size == 1 {
      assert size == Pow2(0);
    } else if size % 2 == 1 {
      AndSelf(size / 2);
      assert (size - 1) / 2 == size / 2;
      forall k: nat ensures size != Pow2(k) {}
    } else {
      PowerOfTwoTest(size / 2);
      AndEven(size / 2);
      PowEven(size / 2);
      assert 2 * (size / 2) == size;
    }
  }

  lemma PowEven(h: nat)
    requires h > 0
    ensures (exists k: nat :: 2 * h == Pow2(k)) <==> (exists k: nat :: h == Pow2(k))
  {
    if k: nat :| h == Pow2(k) {
      assert Pow2(k + 1) == 2 * Pow2(k);
      assert 2 * h == Pow2(k + 1);
    }
    if k: nat :| 2 * h == Pow2(k) {
      assert k > 0;
      assert Pow2(k) == 2 * Pow2(k - 1);
      assert h == Pow2(k - 1);
    }
  }

  lemma AndEven(h: nat)
    requires h > 0
    ensures And(2 * h, 2 * h - 1) == 2 * And(h, h - 1)
  {
    assert (2 * h - 1) / 2 == h - 1 && (2 * h) % 2 == 0;
  }

  lemma AndOdd(s: nat, p: nat)
    requires p > 0
    ensures And(s, 2 * p - 1) == s % 2 + 2 * And(s / 2, p - 1)
  {
    assert (2 * p - 1) / 2 == p - 1 && (2 * p - 1) % 2 == 1;
  }

  lemma MulBound(d: int, m: int)
    requires m > 0
    ensures d >= 1 ==> d * m >= m
    ensures d <= -1 ==> d * m <= -m
  {
  }

  lemma ModUnique(x: int, m: int, q: int, r: int)
    requires m > 0 && x == q * m + r && 0 <= r < m
    ensures x % m == r && x / m == q
  {
    assert (q - x / m) * m == x % m - r;
    MulBound(q - x / m, m);
  }

  lemma HalfMod(s: nat, p: nat)
    requires p > 0
    ensures s % (2 * p) == s % 2 + 2 * ((s / 2) % p)
  {
    var q, r := (s / 2) / p, (s / 2) % p;
    assert q * (2 * p) == 2 * (q * p);
    ModUnique(s, 2 * p, q, 2 * r + s % 2);
  }

  /** Masking with size - 1 is the remainder modulo size. */
  lemma {:induction false} MaskIsMod(s: nat, k: nat)
    ensures And(s, Pow2(k) - 1) == s % Pow2(k)
  {
    hide And;
    if k > 0 {
      MaskIsMod(s / 2, k - 1);
      assert Pow2(k) == 2 * Pow2(k - 1);
      hide Pow2;
      MaskStep(s, Pow2(k - 1));
    } else {
      AndZero(s);
    }
  }

  lemma MaskStep(s: nat, p: nat)
    requires p > 0 && And(s / 2, p - 1) == (s / 2) % p
    ensures And(s, 2 * p - 1) == s % (2 * p)
  {
    AndOdd(s, p);
    HalfMod(s, p);
  }

  lemma AndZero(s: nat)
    ensures And(s, 0) == 0
  {
  }

  lemma MaskOfSize(s: nat, size: nat)
    requires size > 0 && And(size, size - 1) == 0
    ensures And(s, size - 1) == s % size
  {
    PowerOfTwoTest(size);
    var k: nat :| size == Pow2(k);
    MaskIsMod(s, k);
  }

  lemma SameResidue(a: int, m: int)
    requires m > 0
    ensures (a + m) % m == a % m
  {
    assert a == a / m * m + a % m;
    ModUnique(a + m, m, a / m + 1, a % m);
  }

  /** Two numbers less than one lap apart have different remainders. */
  lemma ResidueApart(a: int, b: int, m: int)
    requires m > 0 && a < b < a + m
    ensures a % m != b % m
  {
    assert (b / m - a / m) * m == b - a - (b % m - a % m);
    MulBound(b / m - a / m, m);
  }
}

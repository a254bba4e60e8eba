/** Fixed-width integers as bytes, little-endian (ctypes on the target) and big-endian (struct with '>'). */
module Bytes {
  import opened Text

  /** Doubles are their 64-bit patterns. */
  type Bits64 = x: nat | x < 0x1_0000_0000_0000_0000

  function Pow256(k: nat): (p: nat)
    ensures p > 0
  {
    if k == 0 then 1 else 256 * Pow256(k - 1)
  }

  function ToLE(n: nat, k: nat): (b: bytes)
    ensures |b| == k
  {
    if k == 0 then [] else [(n % 256) as byte] + ToLE(n / 256, k - 1)
  }

  function FromLE(b: bytes): nat {
    if b == [] then 0 else b[0] as nat + 256 * FromLE(b[1..])
  }

  function ToBE(n: nat, k: nat): (b: bytes)
    ensures |b| == k
  {
    if k == 0 then [] else ToBE(n / 256, k - 1) + [(n % 256) as byte]
  }

  function FromBE(b: bytes): nat {
    if b == [] then 0 else 256 * FromBE(b[..|b| - 1]) + b[|b| - 1] as nat
  }

  lemma {:induction false} LERoundTrip(n: nat, k: nat)
    requires n < Pow256(k)
    ensures FromLE(ToLE(n, k)) == n
  {
    if k > 0 {
      LERoundTrip(n / 256, k - 1);
      assert ToLE(n, k)[1..] == ToLE(n / 256, k - 1);
    }
  }

  lemma {:induction false} BERoundTrip(n: nat, k: nat)
    requires n < Pow256(k)
    ensures FromBE(ToBE(n, k)) == n
  {
    if k > 0 {
      BERoundTrip(n / 256, k - 1);
      var b := ToBE(n, k);
      assert b[..|b| - 1] == ToBE(n / 256, k - 1);
    }
  }

  /** Big-endian: the first byte is the most significant. */
  lemma {:induction false} FirstIsHighest(b: bytes)
    requires b != []
    ensures FromBE(b) == b[0] as nat * Pow256(|b| - 1) + FromBE(b[1..])
  {
    var n := |b| - 1;
    if n > 0 {
      FirstIsHighest(b[..n]);
      assert b[..n][1..] == b[1..][..n - 1];
      TimesBase(b[0] as nat, Pow256(n - 1));
    }
  }

  /** Little-endian: the last one is. */
  lemma {:induction false} LastIsHighest(b: bytes)
    requires b != []
    ensures FromLE(b) == FromLE(b[..|b| - 1]) + b[|b| - 1] as nat * Pow256(|b| - 1)
  {
    var n := |b| - 1;
    if n > 0 {
      LastIsHighest(b[1..]);
      assert b[1..][..n - 1] == b[..n][1..];
      TimesBase(b[n] as nat, Pow256(n - 1));
    }
  }

  lemma TimesBase(x: nat, p: nat)
    ensures 256 * (x * p) == x * (256 * p)
  {
  }

  lemma {:induction false} FromLEZeros(b: bytes)
    requires forall i :: 0 <= i < |b| ==> b[i] == 0
    ensures FromLE(b) == 0
  {
    if b != [] { FromLEZeros(b[1..]); }
  }

  lemma Powers()
    ensures Pow256(2) == 0x1_0000 && Pow256(4) == 0x1_0000_0000 && Pow256(8) == 0x1_0000_0000_0000_0000
  {
    assert Pow256(1) == 256;
    assert Pow256(3) == 0x100_0000;
    assert Pow256(5) == 0x100_0000_0000;
    assert Pow256(6) == 0x1_0000_0000_0000;
    assert Pow256(7) == 0x100_0000_0000_0000;
  }

  /** `b[:n]` padded with NULs to n bytes. */
  function Field(b: bytes, n: nat): (f: bytes)
    ensures |f| == n
  {
    if |b| >= n then b[..n] else b + Zeros(n - |b|)
  }

  function Zeros(n: nat): (z: bytes)
    ensures |z| == n && forall i :: 0 <= i < n ==> z[i] == 0
  {
    seq(n, _ => 0)
  }

  /** `b.rstrip(NUL)`. */
  function StripNul(b: bytes): (s: bytes)
    ensures |s| <= |b| && (s != [] ==> s[|s| - 1] != 0)
  {
    if b != [] && b[|b| - 1] == 0 then StripNul(b[..|b| - 1]) else b
  }

  lemma {:induction false} StripPadding(b: bytes, n: nat)
    ensures StripNul(b + Zeros(n)) == StripNul(b)
  {
    if n == 0 {
      assert b + Zeros(n) == b;
    } else {
      var p := b + Zeros(n);
      assert p[..|p| - 1] == b + Zeros(n - 1);
      StripPadding(b, n - 1);
    }
  }

  /** What survives a NUL-padded field that is stripped on reading: the cut text without its trailing NULs. */
  lemma StripField(b: bytes, n: nat)
    ensures StripNul(Field(b, n)) == StripNul(if |b| <= n then b else b[..n])
    ensures StripNul(Field(b, n)) == b <==> |b| <= n && (b == [] || b[|b| - 1] != 0)
  {
    hide StripNul;
    if |b| > n {
      assert |StripNul(b[..n])| < |b|;
    } else {
      if |b| == n {
        assert b[..n] == b;
      } else {
        StripPadding(b, n - |b|);
      }
      StripFixed(b);
    }
  }

  lemma {:induction false} OnlyNuls(b: bytes)
    requires forall i :: 0 <= i < |b| ==> b[i] == 0
    ensures StripNul(b) == []
  {
    if b != [] { OnlyNuls(b[..|b| - 1]); }
  }

  lemma StripFixed(b: bytes)
    ensures StripNul(b) == b <==> b == [] || b[|b| - 1] != 0
  {
  }

  /** The value of a C character array: the bytes before the first NUL. */
  function BeforeNul(b: bytes): (s: bytes)
    ensures s <= b && 0 !in s
  {
    if b == [] || b[0] == 0 then [] else [b[0]] + BeforeNul(b[1..])
  }

  lemma {:induction false} BeforeNulPadding(b: bytes, n: nat)
    ensures BeforeNul(b + Zeros(n)) == BeforeNul(b)
    ensures BeforeNul(b) == b <==> 0 !in b
  {
    if b == [] {
      if n > 0 { assert (b + Zeros(n))[0] == 0; }
    } else {
      assert (b + Zeros(n))[1..] == b[1..] + Zeros(n);
      BeforeNulPadding(b[1..], n);
      assert b == [b[0]] + b[1..];
    }
  }
}

/** Decimal text and ASCII bytes, as Python's `str(int)`, `int(str)`, `str.encode("ascii")`
    and `bytes.decode("ascii", errors="replace")` treat them. */
module Text {

  newtype byte = x: int | 0 <= x < 256

  type bytes = seq<byte>

  datatype Option<+T> = None | Some(value: T)

  // ---------- ASCII ----------

  predicate IsAscii(s: string) {
    forall i :: 0 <= i < |s| ==> s[i] < 128 as char
  }

  function Ascii(s: string): (b: seq<byte>)
    requires IsAscii(s)
  {
    seq(|s|, i requires 0 <= i < |s| => s[i] as int as byte)
  }

  /** A byte outside ASCII is replaced by U+FFFD. */
  function FromAscii(b: seq<byte>): (s: string) {
    seq(|b|, i requires 0 <= i < |b| => if b[i] < 128 then b[i] as int as char else '\U{FFFD}')
  }

  lemma AsciiRoundTrip(s: string)
    requires IsAscii(s)
    ensures FromAscii(Ascii(s)) == s
  {
  }

  /** Every byte outside ASCII reads as the replacement character, and no other does. */
  lemma ReplacesOnly(b: seq<byte>)
    ensures forall i :: 0 <= i < |b| ==> (FromAscii(b)[i] == '\U{FFFD}' <==> b[i] as int >= 128)
    ensures forall i :: 0 <= i < |b| && b[i] as int < 128 ==> FromAscii(b)[i] as int == b[i] as int
  {
  }

  lemma AsciiConcat(s: string, t: string)
    requires IsAscii(s) && IsAscii(t)
    ensures IsAscii(s + t) && Ascii(s + t) == Ascii(s) + Ascii(t)
  {
  }

  // ---------- Printing integers ----------

  predicate IsDigit(c: char) {
    '0' <= c <= '9'
  }

  function Digit(n: nat): (c: char)
    requires n < 10
    ensures IsDigit(c)
  {
    '0' + n as char
  }

  function DecNat(n: nat): (s: string)
    ensures |s| > 0
    ensures forall i :: 0 <= i < |s| ==> IsDigit(s[i])
  {
    if n < 10 then [Digit(n)] else DecNat(n / 10) + [Digit(n % 10)]
  }

  function Dec(n: int): (s: string)
    ensures |s| > 0 && IsAscii(s)
    ensures forall i :: 0 <= i < |s| ==> IsDigit(s[i]) || s[i] == '-'
    ensures IsDigit(s[|s| - 1]) && !IsSpace(s[0])
  {
    if n < 0 then "-" + DecNat(-n) else DecNat(n)
  }

  /** The `03d` format, for a checksum. */
  function Pad3(n: nat): (s: string)
    requires n < 1000
    ensures |s| == 3 && forall i :: 0 <= i < 3 ==> IsDigit(s[i])
  {
    [Digit(n / 100), Digit(n / 10 % 10), Digit(n % 10)]
  }

  // ---------- Reading integers ----------

  predicate IsSpace(c: char) {
    c == ' ' || 9 as char <= c <= 13 as char || 28 as char <= c <= 31 as char
  }

  function Strip(s: string): string {
    if s == [] then []
    else if IsSpace(s[0]) then Strip(s[1..])
    else if IsSpace(s[|s| - 1]) then Strip(s[..|s| - 1])
    else s
  }

  /** Digits, with single underscores allowed strictly between them. */
  predicate IsNumeral(s: string) {
    && |s| > 0 && IsDigit(s[0]) && IsDigit(s[|s| - 1])
    && NumeralChars(s)
    && forall i :: 0 < i < |s| && s[i] == '_' ==> IsDigit(s[i - 1])
  }

  predicate NumeralChars(s: string) {
    forall i :: 0 <= i < |s| ==> IsDigit(s[i]) || s[i] == '_'
  }

  function Value(s: string): (n: nat)
    requires NumeralChars(s)
  {
    if s == [] then 0
    else if s[|s| - 1] == '_' then Value(s[..|s| - 1])
    else
      assert IsDigit(s[|s| - 1]);
      10 * Value(s[..|s| - 1]) + (s[|s| - 1] as int - '0' as int)
  }

  /** Python's `int(s)`; None stands for ValueError. */
  function ParseInt(s: string): Option<int> {
    var t := Strip(s);
    if t == [] then None
    else if t[0] == '-' then
      if IsNumeral(t[1..]) then var v: int := Value(t[1..]); Some(-v) else None
    else if t[0] == '+' then
      if IsNumeral(t[1..]) then Some(Value(t[1..])) else None
    else
      if IsNumeral(t) then Some(Value(t)) else None
  }

  // ----- which texts are integers -----

  predicate Blank(s: string) {
    forall i :: 0 <= i < |s| ==> s[i] as int in {9, 10, 11, 12, 13, 28, 29, 30, 31, 32}
  }

  /** An optional sign and a numeral. */
  predicate IsSigned(t: string, v: int) {
    || (IsNumeral(t) && v == Value(t))
    || (t != [] && t[0] == '+' && IsNumeral(t[1..]) && v == Value(t[1..]))
    || (t != [] && t[0] == '-' && IsNumeral(t[1..]) && v + Value(t[1..]) == 0)
  }

  /** `int(s)` accepts a signed numeral between blanks, and nothing else. */
  lemma ParseIntIff(s: string, v: int)
    ensures ParseInt(s) == Some(v)
            <==> exists i, j :: 0 <= i <= j <= |s| && Blank(s[..i]) && IsSigned(s[i..j], v) && Blank(s[j..])
  {
    hide Strip, Value, IsNumeral, Blank, IsSigned, ParseInt;
    var i, j := StripSplit(s);
    SignedIs(s[i..j], v);
    SameStripped(s, s[i..j]);
    forall k, l | 0 <= k <= l <= |s| && Blank(s[..k]) && IsSigned(s[k..l], v) && Blank(s[l..])
      ensures Strip(s) == s[k..l]
    {
      SignedEnds(s[k..l], v);
      StripBlanks(s, k, l);
    }
  }

  lemma SameStripped(s: string, t: string)
    requires Strip(s) == Strip(t)
    ensures ParseInt(s) == ParseInt(t)
  {
    hide Strip, Value, IsNumeral;
  }

  lemma SignedIs(t: string, v: int)
    requires Strip(t) == t
    ensures IsSigned(t, v) <==> ParseInt(t) == Some(v)
  {
    hide Strip, Value;
  }

  lemma SignedEnds(t: string, v: int)
    requires IsSigned(t, v)
    ensures t != [] && !IsSpace(t[0]) && !IsSpace(t[|t| - 1])
  {
    hide Value;
  }

  lemma StripStep(s: string)
    ensures s != [] && IsSpace(s[0]) ==> Strip(s) == Strip(s[1..])
    ensures s != [] && !IsSpace(s[0]) && IsSpace(s[|s| - 1]) ==> Strip(s) == Strip(s[..|s| - 1])
    ensures s == [] || (!IsSpace(s[0]) && !IsSpace(s[|s| - 1])) ==> Strip(s) == s
  {
  }

  lemma {:induction false} StripSplit(s: string) returns (i: nat, j: nat)
    ensures i <= j <= |s| && Blank(s[..i]) && Blank(s[j..]) && Strip(s) == s[i..j] && Strip(s[i..j]) == s[i..j]
    decreases |s|
  {
    hide Blank, Strip, IsSpace;
    StripStep(s);
    if s == [] {
      i, j := 0, 0;
      NoBlanks();
    } else if IsSpace(s[0]) {
      i, j := StripSplit(s[1..]);
      BlankFront(s[0], s[1..][..i]);
      assert s[1..][i..j] == s[i + 1..j + 1] && s[1..][j..] == s[j + 1..] && [s[0]] + s[1..][..i] == s[..i + 1];
      i, j := i + 1, j + 1;
    } else if IsSpace(s[|s| - 1]) {
      var init := s[..|s| - 1];
      i, j := StripSplit(init);
      BlankBack(init[j..], s[|s| - 1]);
      assert init[i..j] == s[i..j] && init[..i] == s[..i] && init[j..] + [s[|s| - 1]] == s[j..];
    } else {
      i, j := 0, |s|;
      NoBlanks();
      assert s[0..|s|] == s && s[..0] == [] && s[|s|..] == [];
    }
  }

  lemma NoBlanks()
    ensures Blank([])
  {
  }

  lemma BlankFront(c: char, s: string)
    requires IsSpace(c) && Blank(s)
    ensures Blank([c] + s)
  {
  }

  lemma BlankBack(s: string, c: char)
    requires Blank(s) && IsSpace(c)
    ensures Blank(s + [c])
  {
  }

  lemma BlankEnds(s: string)
    requires Blank(s) && s != []
    ensures IsSpace(s[0]) && IsSpace(s[|s| - 1]) && Blank(s[1..]) && Blank(s[..|s| - 1])
  {
  }

  lemma {:induction false} StripBlanks(s: string, i: nat, j: nat)
    requires i < j <= |s| && Blank(s[..i]) && Blank(s[j..]) && !IsSpace(s[i]) && !IsSpace(s[j - 1])
    ensures Strip(s) == s[i..j]
    decreases |s|
  {
    hide Blank, Strip, IsSpace;
    StripStep(s);
    if i > 0 {
      BlankEnds(s[..i]);
      assert s[1..][..i - 1] == s[..i][1..] && s[1..][j - 1..] == s[j..];
      assert s[1..][i - 1..j - 1] == s[i..j];
      StripBlanks(s[1..], i - 1, j - 1);
    } else if j < |s| {
      BlankEnds(s[j..]);
      var init := s[..|s| - 1];
      assert init[j..] == s[j..][..|s| - j - 1] && init[..i] == s[..i] && init[i..j] == s[i..j];
      StripBlanks(init, i, j);
    } else {
      assert s[0..|s|] == s;
    }
  }

  lemma {:induction false} ValueOfDecNat(n: nat)
    ensures IsNumeral(DecNat(n)) && Value(DecNat(n)) == n
  {
    var s := DecNat(n);
    if n < 10 {
      assert s[..0] == [];
      assert Value(s) == 10 * Value(s[..0]) + n;
    } else {
      ValueOfDecNat(n / 10);
      assert s[..|s| - 1] == DecNat(n / 10);
    }
  }

  lemma StripDec(n: int)
    ensures Strip(Dec(n)) == Dec(n)
  {
    hide DecNat, IsAscii;
  }

  lemma ParseOfDec(n: int)
    ensures ParseInt(Dec(n)) == Some(n)
  {
    hide Strip, DecNat, Value, IsSpace, IsAscii, IsNumeral;
    var s := Dec(n);
    StripDec(n);
    if n < 0 {
      ValueOfDecNat(-n);
      assert s[1..] == DecNat(-n);
    } else {
      ValueOfDecNat(n);
    }
  }

  lemma ValueAppend(s: string, n: nat)
    requires NumeralChars(s) && n < 10
    ensures NumeralChars(s + [Digit(n)]) && Value(s + [Digit(n)]) == 10 * Value(s) + n
  {
    assert (s + [Digit(n)])[..|s|] == s;
  }

  lemma Pad3Value(n: nat)
    requires n < 1000
    ensures IsNumeral(Pad3(n)) && Value(Pad3(n)) == n
  {
    hide Value, Digit;
    var a, b, c := n / 100, n / 10 % 10, n % 10;
    ValueAppend([], a);
    ValueAppend([] + [Digit(a)], b);
    ValueAppend([] + [Digit(a)] + [Digit(b)], c);
    assert Pad3(n) == [] + [Digit(a)] + [Digit(b)] + [Digit(c)];
    NoDigits();
  }

  lemma NoDigits()
    ensures Value([]) == 0
  {
  }
}

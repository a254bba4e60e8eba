/** Real arithmetic shared by the models. */
module Reals {

  function Abs(x: real): real {
    if x < 0.0 then -x else x
  }

  function Max(a: real, b: real): real {
    if a >= b then a else b
  }

  function Min(a: real, b: real): real {
    if a <= b then a else b
  }

  /** Python's `int(x)`: truncation toward zero. */
  function Trunc(x: real): int {
    if x >= 0.0 then x.Floor else -((-x).Floor)
  }

  lemma Scale(x: real, y: real, c: real)
    requires x <= y && c >= 0.0
    ensures x * c <= y * c
  {
  }

  lemma ScaleStrict(x: real, y: real, c: real)
    requires x < y && c > 0.0
    ensures x * c < y * c
  {
  }

  lemma Divide(x: real, y: real, c: real)
    requires x <= y && c > 0.0
    ensures x / c <= y / c
  {
  }

  lemma DivideStrict(x: real, y: real, c: real)
    requires x < y && c > 0.0
    ensures x / c < y / c
  {
  }

  lemma AtMostQuotient(k: real, y: real, c: real)
    requires c > 0.0
    ensures k <= y / c <==> k * c <= y
  {
    ProductOver(k, c);
    if k * c <= y { Divide(k * c, y, c); } else { DivideStrict(y, k * c, c); }
  }

  lemma QuotientTimes(x: real, c: real)
    requires c != 0.0
    ensures x / c * c == x
  {
  }

  lemma ProductOver(x: real, c: real)
    requires c != 0.0
    ensures x * c / c == x
  {
  }
}

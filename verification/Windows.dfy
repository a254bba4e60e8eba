/** Windows over a growing log: the last n entries, and the losses since a cutoff. */
module Windows {

  /** A losing trade: when it closed, and how much it lost. */
  datatype Loss = Loss(at: int, amount: real)

  function Kept<T>(log: seq<T>, n: nat): seq<T> {
    if |log| <= n then log else log[|log| - n..]
  }

  /** Appending to a `deque(maxlen=n)`. */
  function Pushed<T>(kept: seq<T>, x: T, n: nat): seq<T> {
    if kept != [] && |kept| >= n then kept[1..] + [x] else kept + [x]
  }

  lemma KeptGrows<T>(log: seq<T>, x: T, n: nat)
    requires n > 0
    ensures |Kept(log, n)| <= n
    ensures Kept(log + [x], n) == Pushed(Kept(log, n), x, n)
  {
  }

  function LostSince(log: seq<Loss>, cutoff: int): real {
    if log == [] then 0.0
    else
      var l := log[|log| - 1];
      LostSince(log[..|log| - 1], cutoff) + if l.at >= cutoff then l.amount else 0.0
  }

  lemma {:induction false} LostAppend(a: seq<Loss>, b: seq<Loss>, cutoff: int)
    ensures LostSince(a + b, cutoff) == LostSince(a, cutoff) + LostSince(b, cutoff)
    decreases |b|
  {
    if b == [] {
      assert a + b == a;
    } else {
      assert (a + b)[..|a + b| - 1] == a + b[..|b| - 1];
      LostAppend(a, b[..|b| - 1], cutoff);
    }
  }
}

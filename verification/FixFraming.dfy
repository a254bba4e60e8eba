/** Cutting a byte stream into FIX messages: a frame ends at the first SOH after the first `10=`. */
module FixFraming {
  import opened Text

  const SOH_BYTE: byte := 1

  // ---------- The scanner ----------

  /** `10=` starts at position i. */
  predicate TagAt(s: bytes, i: nat) {
    i + 3 <= |s| && s[i] == 49 && s[i + 1] == 48 && s[i + 2] == 61
  }

  /** `s.find(b"10=")` from position i. */
  function FindTag(s: bytes, i: nat): (r: Option<nat>)
    ensures r.Some? ==> i <= r.value && TagAt(s, r.value) && forall k :: i <= k < r.value ==> !TagAt(s, k)
    ensures r.None? ==> forall k :: i <= k ==> !TagAt(s, k)
    decreases |s| - i
  {
    if i >= |s| then None else if TagAt(s, i) then Some(i) else FindTag(s, i + 1)
  }

  /** `s.find(SOH)` from position i. */
  function FindSoh(s: bytes, i: nat): (r: Option<nat>)
    ensures r.Some? ==> i <= r.value < |s| && s[r.value] == SOH_BYTE
                        && forall k :: i <= k < r.value ==> s[k] != SOH_BYTE
    ensures r.None? ==> forall k :: i <= k < |s| ==> s[k] != SOH_BYTE
    decreases |s| - i
  {
    if i >= |s| then None else if s[i] == SOH_BYTE then Some(i) else FindSoh(s, i + 1)
  }

  /** One turn of the inner loop: the length of the first complete frame, if there is one. */
  function FrameEnd(s: bytes): (r: Option<nat>)
    ensures r.Some? ==> 3 < r.value <= |s|
  {
    match FindTag(s, 0)
    case None => None
    case Some(i) =>
      match FindSoh(s, i)
      case None => None
      case Some(e) => Some(e + 1)
  }

  /** The inner loop run to its end: the frames cut off and the bytes left in the buffer. */
  function Drain(s: bytes): (r: (seq<bytes>, bytes))
    decreases |s|
  {
    match FrameEnd(s)
    case None => ([], s)
    case Some(e) => var (frames, rest) := Drain(s[e..]); ([s[..e]] + frames, rest)
  }

  /** The outer loop: each chunk is appended to the buffer, which is then drained. */
  function Receive(buffer: bytes, chunks: seq<bytes>): (r: (seq<bytes>, bytes))
    decreases |chunks|
  {
    if chunks == [] then ([], buffer)
    else
      var (first, rest) := Drain(buffer + chunks[0]);
      var (more, residue) := Receive(rest, chunks[1..]);
      (first + more, residue)
  }

  function Flatten(chunks: seq<bytes>): bytes {
    if chunks == [] then [] else chunks[0] + Flatten(chunks[1..])
  }

  // ---------- What a frame is, without an algorithm ----------

  /** The first e bytes end in SOH and hold a `10=`. */
  predicate Complete(s: bytes, e: nat) {
    0 < e <= |s| && s[e - 1] == SOH_BYTE && exists i :: 0 <= i && i + 3 < e && TagAt(s, i)
  }

  predicate IsFrameEnd(s: bytes, e: nat) {
    Complete(s, e) && forall k :: 0 <= k < e ==> !Complete(s, k)
  }

  lemma FrameEndComplete(s: bytes)
    requires FrameEnd(s).Some?
    ensures Complete(s, FrameEnd(s).value)
  {
    var i := FindTag(s, 0).value;
    assert s[i] != SOH_BYTE && s[i + 1] != SOH_BYTE && s[i + 2] != SOH_BYTE;
    assert TagAt(s, i);
  }

  lemma CompleteBound(s: bytes, k: nat)
    requires Complete(s, k)
    ensures FrameEnd(s).Some? && FrameEnd(s).value <= k
  {
    var j: nat :| j + 3 < k && TagAt(s, j);
    var i := FindTag(s, 0).value;
    assert i <= j;
    assert s[k - 1] == SOH_BYTE;
  }

  /** The scanner finds the declared frame end, and fails only when no prefix is complete. */
  lemma FrameEndIff(s: bytes, e: nat)
    ensures FrameEnd(s) == Some(e) <==> IsFrameEnd(s, e)
    ensures FrameEnd(s).None? ==> !Complete(s, e)
  {
    if FrameEnd(s).Some? { FrameEndComplete(s); }
    forall k | Complete(s, k) ensures FrameEnd(s).Some? && FrameEnd(s).value <= k {
      CompleteBound(s, k);
    }
  }

  lemma CompleteLocal(s: bytes, t: bytes, e: nat)
    requires e <= |s|
    ensures Complete(s, e) <==> Complete(s + t, e)
  {
    forall i: nat | i + 3 < e ensures TagAt(s, i) == TagAt(s + t, i) {}
  }

  // ---------- Chunk independence ----------

  /** Bytes that arrive later never move the end of a frame already complete. */
  lemma FrameEndStable(s: bytes, t: bytes)
    requires FrameEnd(s).Some?
    ensures FrameEnd(s + t) == FrameEnd(s)
  {
    var e := FrameEnd(s).value;
    FrameEndComplete(s);
    CompleteLocal(s, t, e);
    CompleteBound(s + t, e);
    var e' := FrameEnd(s + t).value;
    FrameEndComplete(s + t);
    CompleteLocal(s, t, e');
    CompleteBound(s, e');
  }

  lemma DrainStep(s: bytes, t: bytes)
    requires FrameEnd(s).Some?
    ensures var e := FrameEnd(s).value;
            Drain(s + t) == ([s[..e]] + Drain(s[e..] + t).0, Drain(s[e..] + t).1)
  {
    var e := FrameEnd(s).value;
    FrameEndStable(s, t);
    assert (s + t)[..e] == s[..e] && (s + t)[e..] == s[e..] + t;
  }

  lemma {:induction false} DrainAppend(s: bytes, t: bytes)
    ensures Drain(s + t).0 == Drain(s).0 + Drain(Drain(s).1 + t).0
    ensures Drain(s + t).1 == Drain(Drain(s).1 + t).1
    decreases |s|
  {
    if FrameEnd(s).Some? {
      var e := FrameEnd(s).value;
      DrainStep(s, t);
      DrainAppend(s[e..], t);
      ConcatAssoc([s[..e]], Drain(s[e..]).0, Drain(Drain(s[e..]).1 + t).0);
    }
  }

  lemma ConcatAssoc(a: seq<bytes>, b: seq<bytes>, c: seq<bytes>)
    ensures a + (b + c) == a + b + c
  {
  }

  lemma {:induction false} DrainResidue(s: bytes)
    ensures FrameEnd(Drain(s).1).None?
    decreases |s|
  {
    if FrameEnd(s).Some? {
      DrainResidue(s[FrameEnd(s).value..]);
    }
  }

  lemma {:induction false} ReceiveDrained(buffer: bytes, chunks: seq<bytes>)
    requires FrameEnd(buffer).None?
    ensures Receive(buffer, chunks) == Drain(buffer + Flatten(chunks))
    decreases |chunks|
  {
    if chunks == [] {
      assert buffer + [] == buffer;
    } else {
      var s, later := buffer + chunks[0], Flatten(chunks[1..]);
      DrainResidue(s);
      ReceiveDrained(Drain(s).1, chunks[1..]);
      DrainAppend(s, later);
      assert s + later == buffer + (chunks[0] + later);
    }
  }

  /** For every stream and every way of cutting it into chunks, the read loop finds the frames,
      and leaves the residue, of one pass over the whole stream. */
  lemma ChunkIndependence(chunks: seq<bytes>)
    ensures Receive([], chunks) == Drain(Flatten(chunks))
  {
    ReceiveDrained([], chunks);
    assert [] + Flatten(chunks) == Flatten(chunks);
  }

  /** Nothing is lost or invented: the frames and the residue are the stream, each frame is minimal,
      and the residue holds no complete frame. */
  ghost predicate IsCutting(s: bytes, frames: seq<bytes>, residue: bytes) {
    && Flatten(frames) + residue == s
    && (forall f :: f in frames ==> IsFrameEnd(f, |f|))
    && NoFrame(residue)
  }

  ghost predicate NoFrame(s: bytes) {
    forall e: nat :: !Complete(s, e)
  }

  lemma NoFrameIff(s: bytes)
    ensures NoFrame(s) <==> FrameEnd(s).None?
  {
    if FrameEnd(s).Some? {
      FrameEndComplete(s);
    } else {
      forall e: nat ensures !Complete(s, e) { FrameEndIff(s, e); }
    }
  }

  /** The cutting exists and is unique: it is what the read loop computes. */
  lemma {:induction false} DrainIsTheCutting(s: bytes, frames: seq<bytes>, residue: bytes)
    ensures IsCutting(s, frames, residue) <==> Drain(s) == (frames, residue)
    decreases |s|
  {
    if Drain(s) == (frames, residue) {
      DrainCuts(s);
    }
    if IsCutting(s, frames, residue) {
      CuttingIsDrain(s, frames, residue);
    }
  }

  lemma {:induction false} DrainCuts(s: bytes)
    ensures IsCutting(s, Drain(s).0, Drain(s).1)
    decreases |s|
  {
    match FrameEnd(s)
    case None =>
      assert Flatten([]) + s == s;
      NoFrameIff(s);
    case Some(e) =>
      DrainCuts(s[e..]);
      CuttingCons(s, e, Drain(s[e..]).0, Drain(s[e..]).1);
  }

  lemma CuttingCons(s: bytes, e: nat, frames: seq<bytes>, residue: bytes)
    requires FrameEnd(s) == Some(e) && IsCutting(s[e..], frames, residue)
    ensures IsCutting(s, [s[..e]] + frames, residue)
  {
    PrefixFrame(s, e);
    var all := [s[..e]] + frames;
    assert all[1..] == frames && all[0] == s[..e];
    assert s[..e] + Flatten(frames) + residue == s[..e] + (Flatten(frames) + residue);
    assert s == s[..e] + s[e..];
  }

  lemma PrefixFrame(s: bytes, e: nat)
    requires FrameEnd(s) == Some(e)
    ensures IsFrameEnd(s[..e], e)
  {
    assert s == s[..e] + s[e..];
    FrameEndIff(s, e);
    forall k: nat | k <= e ensures Complete(s[..e], k) == Complete(s, k) {
      CompleteLocal(s[..e], s[e..], k);
    }
  }

  lemma {:induction false} CuttingIsDrain(s: bytes, frames: seq<bytes>, residue: bytes)
    requires IsCutting(s, frames, residue)
    ensures Drain(s) == (frames, residue)
    decreases |frames|
  {
    hide NoFrame, IsFrameEnd, FrameEnd;
    if frames == [] {
      assert s == residue;
      NoFrameIff(s);
    } else {
      var t := Flatten(frames[1..]) + residue;
      assert s == frames[0] + t;
      assert frames[0] in frames;
      TailCutting(frames, residue);
      CuttingIsDrain(t, frames[1..], residue);
      DrainCons(frames[0], t);
      assert [frames[0]] + frames[1..] == frames;
    }
  }

  lemma DrainCons(f: bytes, t: bytes)
    requires IsFrameEnd(f, |f|)
    ensures Drain(f + t) == ([f] + Drain(t).0, Drain(t).1)
  {
    FrameEndIff(f, |f|);
    DrainStep(f, t);
    assert f[..|f|] == f && f[|f|..] + t == t;
  }

  lemma TailCutting(frames: seq<bytes>, residue: bytes)
    requires frames != [] && IsCutting(Flatten(frames) + residue, frames, residue)
    ensures IsCutting(Flatten(frames[1..]) + residue, frames[1..], residue)
  {
  }

  // ---------- Streams of messages that end in a trailer ----------

  /** Every encoded message ends in SOH, `10=`, three bytes that are not SOH, and SOH. */
  predicate EndsInTrailer(w: bytes) {
    && |w| >= 7 && TagAt(w, |w| - 7) && w[|w| - 1] == SOH_BYTE
    && w[|w| - 4] != SOH_BYTE && w[|w| - 3] != SOH_BYTE && w[|w| - 2] != SOH_BYTE
    && (|w| >= 8 ==> w[|w| - 8] == SOH_BYTE)
  }

  /** No `10=` before the trailer. */
  predicate Clean(w: bytes) {
    forall i: nat :: i + 7 < |w| ==> !TagAt(w, i)
  }

  lemma TrailerFrame(w: bytes)
    requires EndsInTrailer(w)
    ensures FrameEnd(w).Some?
    ensures Clean(w) ==> FrameEnd(w).value == |w|
    ensures !Clean(w) ==> FrameEnd(w).value <= |w| - 7
  {
    assert TagAt(w, |w| - 7);
    var i := FindTag(w, 0).value;
    if !Clean(w) {
      var j: nat :| j + 7 < |w| && TagAt(w, j);
      assert i <= j <= |w| - 11;
      assert w[|w| - 8] == SOH_BYTE;
    } else {
      assert i == |w| - 7;
      assert TagAt(w, i) && forall k :: i <= k < |w| - 1 ==> w[k] != SOH_BYTE;
    }
  }

  /** A trailer at the end leaves no residue, and at least one frame; exactly one, the message
      itself, if and only if no `10=` occurs before the trailer. */
  lemma {:induction false} DrainMessage(w: bytes)
    requires EndsInTrailer(w)
    ensures Drain(w).1 == []
    ensures Clean(w) ==> Drain(w).0 == [w]
    ensures !Clean(w) ==> |Drain(w).0| >= 2
    decreases |w|
  {
    TrailerFrame(w);
    var e := FrameEnd(w).value;
    if Clean(w) {
      assert w[..e] == w && Drain(w[e..]) == ([], []);
    } else {
      assert |w[e..]| >= 7;
      assert EndsInTrailer(w[e..]);
      DrainMessage(w[e..]);
    }
  }

  lemma {:induction false} DrainStream(ws: seq<bytes>)
    requires forall w :: w in ws ==> EndsInTrailer(w)
    ensures Drain(Flatten(ws)).1 == []
    ensures |Drain(Flatten(ws)).0| >= |ws|
    ensures (forall w :: w in ws ==> Clean(w)) <==> |Drain(Flatten(ws)).0| == |ws|
    ensures (forall w :: w in ws ==> Clean(w)) ==> Drain(Flatten(ws)).0 == ws
  {
    hide EndsInTrailer, Clean;
    if ws != [] {
      assert ws[0] in ws;
      DrainMessage(ws[0]);
      DrainAppend(ws[0], Flatten(ws[1..]));
      assert [] + Flatten(ws[1..]) == Flatten(ws[1..]);
      DrainStream(ws[1..]);
      assert ws == [ws[0]] + ws[1..];
    }
  }
}

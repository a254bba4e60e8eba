/** The FIX session: numbering what is sent, the read loop, and both ends put together. */
module FixConnector {
  import opened Text
  import opened FixMessage
  import opened FixFraming

  datatype SessionState = Disconnected | Connecting | LogonSent | Active | LogoutPending

  datatype SendResult = Sent | NoWriter | NotAscii

  /** A message handed to `_send`, and the clock text at that moment. */
  datatype Outgoing = Outgoing(msg: Message, now: string)

  function NextState(state: SessionState, msgType: string): SessionState {
    if msgType == "A" then Active else if msgType == "5" then Disconnected else state
  }

  function StateAfter(state: SessionState, msgs: seq<Message>): SessionState {
    if msgs == [] then state
    else NextState(StateAfter(state, msgs[..|msgs| - 1]), msgs[|msgs| - 1].msgType)
  }

  /** Some message of type `t` is not followed by one of type `over`. */
  predicate Wins(msgs: seq<Message>, t: string, over: string) {
    exists i :: 0 <= i < |msgs| && msgs[i].msgType == t && forall j :: i < j < |msgs| ==> msgs[j].msgType != over
  }

  lemma WinsAppend(msgs: seq<Message>, m: Message, t: string, over: string)
    ensures Wins(msgs + [m], t, over) <==> m.msgType == t || (Wins(msgs, t, over) && m.msgType != over)
  {
    var all := msgs + [m];
    assert all[|msgs|] == m;
    if Wins(msgs, t, over) && m.msgType != over {
      var i :| 0 <= i < |msgs| && msgs[i].msgType == t && forall j :: i < j < |msgs| ==> msgs[j].msgType != over;
      assert all[i].msgType == t && forall j :: i < j < |all| ==> all[j].msgType != over;
    }
    if Wins(all, t, over) && m.msgType != t {
      var i :| 0 <= i < |all| && all[i].msgType == t && forall j :: i < j < |all| ==> all[j].msgType != over;
      assert msgs[i].msgType == t && forall j :: i < j < |msgs| ==> msgs[j] == all[j];
    }
  }

  /** A session is active after a Logon(A) with no Logout(5) behind it, disconnected the other way round, and otherwise
      where it was. */
  lemma {:induction false} LogonsDecide(state: SessionState, msgs: seq<Message>)
    ensures !(Wins(msgs, "A", "5") && Wins(msgs, "5", "A"))
    ensures StateAfter(state, msgs) == if Wins(msgs, "A", "5") then Active
        else if Wins(msgs, "5", "A") then Disconnected else state
  {
    if msgs != [] {
      hide Wins;
      var before, last := msgs[..|msgs| - 1], msgs[|msgs| - 1];
      assert msgs == before + [last];
      LogonsDecide(state, before);
      WinsAppend(before, last, "A", "5");
      WinsAppend(before, last, "5", "A");
    }
  }

  function OfType(msgs: seq<Message>, types: set<string>): seq<Message> {
    if msgs == [] then []
    else
      var before, last := OfType(msgs[..|msgs| - 1], types), msgs[|msgs| - 1];
      if last.msgType in types then before + [last] else before
  }

  lemma OfTypeAppend(msgs: seq<Message>, msg: Message, types: set<string>)
    ensures OfType(msgs + [msg], types) == if msg.msgType in types then OfType(msgs, types) + [msg]
        else OfType(msgs, types)
  {
    assert (msgs + [msg])[..|msgs|] == msgs;
  }

  function DecodeAll(frames: seq<bytes>): seq<Message> {
    if frames == [] then [] else DecodeAll(frames[..|frames| - 1]) + [Decode(frames[|frames| - 1])]
  }

  lemma {:induction false} DecodeAllAt(frames: seq<bytes>)
    ensures |DecodeAll(frames)| == |frames|
    ensures forall i :: 0 <= i < |frames| ==> DecodeAll(frames)[i] == Decode(frames[i])
  {
    if frames != [] {
      DecodeAllAt(frames[..|frames| - 1]);
    }
  }

  lemma DecodeAllAppend(frames: seq<bytes>, raw: bytes)
    ensures DecodeAll(frames + [raw]) == DecodeAll(frames) + [Decode(raw)]
  {
    assert (frames + [raw])[..|frames|] == frames;
  }

  /** The chunks read before the first empty read, which means end of stream. */
  function UntilEmpty(chunks: seq<bytes>): seq<bytes> {
    if chunks == [] || chunks[0] == [] then [] else [chunks[0]] + UntilEmpty(chunks[1..])
  }

  // ---------- The session object ----------

  function StampAt(sender: string, target: string, outbox: seq<Outgoing>, i: nat): Stamp
    requires i < |outbox|
  {
    Stamp(sender, target, i + 1, outbox[i].now)
  }

  /** The i-th message on the socket is the i-th message sent, encoded with sequence number i + 1. */
  ghost predicate IsLog(sender: string, target: string, outbox: seq<Outgoing>, socket: seq<bytes>) {
    && |socket| == |outbox|
    && forall i :: 0 <= i < |outbox| ==> IsWire(outbox[i].msg, StampAt(sender, target, outbox, i), socket[i])
  }

  predicate IsWire(m: Message, st: Stamp, w: bytes) {
    Distinct(m.fields) && Encode(m, st) == Some(w)
  }

  lemma LogAppend(sender: string, target: string, outbox: seq<Outgoing>, socket: seq<bytes>, o: Outgoing, w: bytes)
    requires IsLog(sender, target, outbox, socket)
    requires IsWire(o.msg, Stamp(sender, target, |socket| + 1, o.now), w)
    ensures IsLog(sender, target, outbox + [o], socket + [w])
  {
    forall i | 0 <= i <= |outbox|
      ensures IsWire((outbox + [o])[i].msg, StampAt(sender, target, outbox + [o], i), (socket + [w])[i])
    {
      if i < |outbox| {
        assert StampAt(sender, target, outbox + [o], i) == StampAt(sender, target, outbox, i);
      }
    }
  }

  /** Part of the stream `all` has been cut into `frames`; the rest is still in the buffer. */
  ghost predicate Progress(all: bytes, frames: seq<bytes>, buffer: bytes) {
    Drain(all) == (frames + Drain(buffer).0, Drain(buffer).1)
  }

  lemma ProgressCut(all: bytes, frames: seq<bytes>, buffer: bytes, e: nat)
    requires Progress(all, frames, buffer) && FrameEnd(buffer) == Some(e)
    ensures Progress(all, frames + [buffer[..e]], buffer[e..])
  {
    var rest := Drain(buffer[e..]).0;
    assert frames + ([buffer[..e]] + rest) == frames + [buffer[..e]] + rest;
  }

  /** One turn of the inner loop: the frame at the front of the buffer is dispatched. */
  lemma TurnDone(all: bytes, frames: seq<bytes>, buffer: bytes, e: nat, inbox: seq<Message>, state: SessionState)
    requires Progress(all, frames, buffer) && FrameEnd(buffer) == Some(e)
    ensures Progress(all, frames + [buffer[..e]], buffer[e..])
    ensures inbox + DecodeAll(frames + [buffer[..e]]) == inbox + DecodeAll(frames) + [Decode(buffer[..e])]
    ensures StateAfter(state, DecodeAll(frames + [buffer[..e]]))
            == NextState(StateAfter(state, DecodeAll(frames)), Decode(buffer[..e]).msgType)
  {
    hide Drain, Decode, DecodeAll, StateAfter, NextState, Progress, FrameEnd;
    ProgressCut(all, frames, buffer, e);
    DecodeAllAppend(frames, buffer[..e]);
    AppendAssoc(inbox, DecodeAll(frames), [Decode(buffer[..e])]);
    StateAfterAppend(state, DecodeAll(frames), Decode(buffer[..e]));
  }

  lemma ProgressDone(all: bytes, frames: seq<bytes>, buffer: bytes)
    requires Progress(all, frames, buffer) && FrameEnd(buffer).None?
    ensures Drain(all) == (frames, buffer)
  {
    assert frames + [] == frames;
  }

  lemma {:induction false} DecodeAllConcat(a: seq<bytes>, b: seq<bytes>)
    ensures DecodeAll(a + b) == DecodeAll(a) + DecodeAll(b)
  {
    if b == [] {
      assert a + b == a;
    } else {
      var b', raw := b[..|b| - 1], b[|b| - 1];
      assert a + b == (a + b') + [raw];
      DecodeAllAppend(a + b', raw);
      DecodeAllConcat(a, b');
    }
  }

  lemma StateAfterAppend(state: SessionState, msgs: seq<Message>, msg: Message)
    ensures StateAfter(state, msgs + [msg]) == NextState(StateAfter(state, msgs), msg.msgType)
  {
    assert (msgs + [msg])[..|msgs|] == msgs;
  }

  /** One turn of the outer loop: drain the buffer extended by the chunk just read. */
  lemma ReceiveStep(buffer: bytes, chunks: seq<bytes>, inbox: seq<Message>)
    requires chunks != [] && chunks[0] != []
    ensures var (frames, rest) := Drain(buffer + chunks[0]);
            inbox + DecodeAll(Receive(buffer, UntilEmpty(chunks)).0)
            == inbox + DecodeAll(frames) + DecodeAll(Receive(rest, UntilEmpty(chunks[1..])).0)
  {
    var (frames, rest) := Drain(buffer + chunks[0]);
    var later := UntilEmpty(chunks[1..]);
    assert UntilEmpty(chunks)[1..] == later;
    DecodeAllConcat(frames, Receive(rest, later).0);
    AppendAssoc(inbox, DecodeAll(frames), DecodeAll(Receive(rest, later).0));
  }

  lemma ReceiveEnd(buffer: bytes, chunks: seq<bytes>)
    requires chunks == [] || chunks[0] == []
    ensures DecodeAll(Receive(buffer, UntilEmpty(chunks)).0) == []
  {
  }

  lemma AppendAssoc(a: seq<Message>, b: seq<Message>, c: seq<Message>)
    ensures a + b + c == a + (b + c)
  {
  }

  class Connector {
    const sender: string
    const target: string
    const handlesExecutions: bool
    const handlesMarketData: bool

    var state: SessionState
    var seqNumOut: int
    var seqNumInExpected: int
    var running: bool
    var writerOpen: bool
    var socket: seq<bytes>          // bytes written, message by message
    var executions: seq<Message>    // handed to the execution callback
    var marketData: seq<Message>    // handed to the market data callback

    ghost var outbox: seq<Outgoing>   // every message sent successfully
    ghost var inbox: seq<Message>     // every message dispatched

    /** Message number i on the socket carries sequence number i + 1, with no gap. */
    ghost predicate Valid()
      reads this
    {
      Numbered() && Dispatched()
    }

    ghost predicate Numbered()
      reads `seqNumOut, `socket, `outbox
    {
      seqNumOut == |socket| + 1 && IsLog(sender, target, outbox, socket)
    }

    ghost predicate Dispatched()
      reads `seqNumInExpected, `inbox, `executions, `marketData
    {
      && seqNumInExpected == |inbox| + 1
      && executions == (if handlesExecutions then OfType(inbox, {"8"}) else [])
      && marketData == (if handlesMarketData then OfType(inbox, {"W", "X"}) else [])
    }

    constructor (sender: string, target: string, handlesExecutions: bool, handlesMarketData: bool)
      ensures Valid() && socket == [] && inbox == [] && state == Disconnected && !running && !writerOpen
      ensures this.sender == sender && this.target == target
      ensures this.handlesExecutions == handlesExecutions && this.handlesMarketData == handlesMarketData
    {
      this.sender, this.target := sender, target;
      this.handlesExecutions, this.handlesMarketData := handlesExecutions, handlesMarketData;
      state, running, writerOpen := Disconnected, false, false;
      seqNumOut, seqNumInExpected := 1, 1;
      socket, executions, marketData := [], [], [];
      outbox, inbox := [], [];
    }

    /** A failed send consumes no sequence number. */
    method Send(msg: Message, now: string) returns (r: SendResult)
      requires Valid() && Distinct(msg.fields)
      modifies this
      ensures Valid() && inbox == old(inbox) && state == old(state)
      ensures r == (if !old(writerOpen) then NoWriter
                    else if !Encodable(msg, Stamp(sender, target, old(seqNumOut), now)) then NotAscii
                    else Sent)
      ensures r == Sent ==> outbox == old(outbox) + [Outgoing(msg, now)] && socket[..|old(socket)|] == old(socket)
      ensures r != Sent ==> outbox == old(outbox) && socket == old(socket)
    {
      hide IsLog, OfType, Encodable, WireText;
      if !writerOpen {
        return NoWriter;
      }
      var wire := Encode(msg, Stamp(sender, target, seqNumOut, now));
      if wire.None? {
        return NotAscii;
      }
      LogAppend(sender, target, outbox, socket, Outgoing(msg, now), wire.value);
      seqNumOut := seqNumOut + 1;
      socket := socket + [wire.value];
      outbox := outbox + [Outgoing(msg, now)];
      return Sent;
    }

    method Dispatch(msg: Message)
      requires Dispatched()
      modifies `seqNumInExpected, `state, `executions, `marketData, `inbox
      ensures Dispatched() && inbox == old(inbox) + [msg]
      ensures state == NextState(old(state), msg.msgType)
      ensures executions == old(executions) + if handlesExecutions && msg.msgType == "8" then [msg] else []
      ensures marketData == old(marketData) + if handlesMarketData && msg.msgType in {"W", "X"} then [msg] else []
    {
      OfTypeAppend(inbox, msg, {"8"});
      OfTypeAppend(inbox, msg, {"W", "X"});
      hide OfType;
      seqNumInExpected := seqNumInExpected + 1;
      inbox := inbox + [msg];
      if msg.msgType == "A" {
        state := Active;
      } else if msg.msgType == "0" {
      } else if msg.msgType == "5" {
        state := Disconnected;
      } else if msg.msgType == "8" {
        if handlesExecutions {
          executions := executions + [msg];
        }
      } else if msg.msgType in {"W", "X"} {
        if handlesMarketData {
          marketData := marketData + [msg];
        }
      }
    }

    /** The first `10=` of the buffer, then the first delimiter after it: where the frame at the front ends, if it
        does. */
    method NextFrameEnd(buffer: bytes) returns (end: Option<nat>)
      ensures end == FrameEnd(buffer)
    {
      var tag := FindTag(buffer, 0);
      if tag == None { return None; }
      var soh := FindSoh(buffer, tag.value);
      return if soh == None then None else Some(soh.value + 1);
    }

    /** The inner loop: dispatch the complete messages in the buffer and return what is left. */
    method DispatchComplete(buffer: bytes) returns (rest: bytes)
      requires Dispatched()
      modifies `seqNumInExpected, `state, `executions, `marketData, `inbox
      ensures Dispatched() && rest == Drain(buffer).1
      ensures inbox == old(inbox) + DecodeAll(Drain(buffer).0)
      ensures state == StateAfter(old(state), DecodeAll(Drain(buffer).0))
    {
      rest := buffer;
      ghost var frames: seq<bytes> := [];
      assert frames + Drain(buffer).0 == Drain(buffer).0;
      assert Progress(buffer, frames, rest) && DecodeAll(frames) == [] && StateAfter(state, []) == state;
      hide Drain, Decode, DecodeAll, StateAfter, NextState, OfType, Progress, FrameEnd;
      var end := NextFrameEnd(rest);
      while end.Some?
        invariant end == FrameEnd(rest)
        invariant Dispatched() && Progress(buffer, frames, rest)
        invariant inbox == old(inbox) + DecodeAll(frames)
        invariant state == StateAfter(old(state), DecodeAll(frames))
        decreases |rest|
      {
        var raw := rest[..end.value];
        TurnDone(buffer, frames, rest, end.value, old(inbox), old(state));
        rest := rest[end.value..];
        Dispatch(Decode(raw));
        frames := frames + [raw];
        end := NextFrameEnd(rest);
      }
      ProgressDone(buffer, frames, rest);
    }

    /** The whole life of one connection: `chunks` are the results of the successive reads. */
    method ReadLoop(chunks: seq<bytes>)
      requires Valid() && running
      modifies `seqNumInExpected, `state, `executions, `marketData, `inbox
      ensures Valid() && state == Disconnected
      ensures inbox == old(inbox) + DecodeAll(Receive([], UntilEmpty(chunks)).0)
    {
      hide Drain, Receive, UntilEmpty, DecodeAll, OfType, Numbered;
      var buffer: bytes := [];
      var i := 0;
      assert chunks[0..] == chunks;
      while i < |chunks| && chunks[i] != []
        invariant Dispatched() && i <= |chunks|
        invariant old(inbox) + DecodeAll(Receive([], UntilEmpty(chunks)).0)
                  == inbox + DecodeAll(Receive(buffer, UntilEmpty(chunks[i..])).0)
      {
        ReceiveStep(buffer, chunks[i..], inbox);
        buffer := DispatchComplete(buffer + chunks[i]);
        i := i + 1;
      }
      ReceiveEnd(buffer, chunks[i..]);
      state := Disconnected;
    }
  }

  // ---------- Which messages survive ----------

  predicate TagText(s: string, i: nat) {
    i + 3 <= |s| && s[i] == '1' && s[i + 1] == '0' && s[i + 2] == '='
  }

  predicate HasTag(s: string) {
    exists i: nat :: i < |s| && TagText(s, i)
  }

  /** What a caller can check before sending: no delimiter and no `10=` in a value, no tag ending in 10. */
  predicate Recoverable(m: Message, st: Stamp) {
    forall f :: f in BodyFields(m, st) ==> SOH !in f.value && !HasTag(f.value) && !EndsInTen(f.tag)
  }

  predicate EndsInTen(tag: int) {
    (if tag < 0 then -tag else tag) % 100 == 10
  }

  lemma HasTagAcrossSoh(a: string, b: string)
    ensures HasTag(a + [SOH] + b) <==> HasTag(a) || HasTag(b)
  {
    var s := a + [SOH] + b;
    forall i: nat | TagText(a, i) ensures TagText(s, i) {}
    forall i: nat | TagText(b, i) ensures TagText(s, |a| + 1 + i) {}
    forall i: nat | TagText(s, i) ensures TagText(a, i) || (i > |a| && TagText(b, i - |a| - 1)) {
      assert s[|a|] == SOH;
    }
  }

  lemma DecNatEnd(n: nat)
    ensures var d := DecNat(n);
            |d| >= 2 && d[|d| - 2] == '1' && d[|d| - 1] == '0' <==> n % 100 == 10
  {
    var d := DecNat(n);
    if n >= 10 {
      var q := DecNat(n / 10);
      assert q[|q| - 1] == Digit(n / 10 % 10);
      assert d == q + [Digit(n % 10)];
    }
  }

  lemma TagTextEnd(f: Field)
    ensures var d := Dec(f.tag);
            EndsInTen(f.tag) <==> |d| >= 2 && d[|d| - 2] == '1' && d[|d| - 1] == '0'
  {
    hide DecNat;
    var n := if f.tag < 0 then -f.tag else f.tag;
    DecNatEnd(n);
    if f.tag < 0 {
      assert Dec(f.tag) == "-" + DecNat(n);
    }
  }

  lemma FieldHasTag(f: Field)
    ensures HasTag(FieldText(f)) <==> HasTag(f.value) || EndsInTen(f.tag)
  {
    TagTextEnd(f);
    TagAroundEquals(Dec(f.tag), f.value);
  }

  lemma TagAroundEquals(d: string, v: string)
    requires '=' !in d
    ensures HasTag(d + "=" + v) <==> HasTag(v) || (|d| >= 2 && d[|d| - 2] == '1' && d[|d| - 1] == '0')
  {
    var s, k := d + "=" + v, |d|;
    if k >= 2 && d[k - 2] == '1' && d[k - 1] == '0' {
      assert TagText(s, k - 2);
    }
    forall i: nat | TagText(v, i) ensures TagText(s, k + 1 + i) {}
    forall i: nat | TagText(s, i) ensures i + 2 == k || (i > k && TagText(v, i - k - 1)) {
      assert s[k] == '=';
      assert forall j :: 0 <= j < k ==> s[j] == d[j];
    }
  }

  lemma {:induction false} RenderHasTag(fs: seq<Field>)
    ensures HasTag(Render(fs)) <==> exists f :: f in fs && HasTag(FieldText(f))
  {
    hide HasTag, FieldText;
    if fs == [] {
      NoEquals("");
    } else {
      HasTagAcrossSoh(FieldText(fs[0]), Render(fs[1..]));
      RenderHasTag(fs[1..]);
      assert fs == [fs[0]] + fs[1..];
    }
  }

  /** An encoded message ends in a trailer, and is clean exactly when no body field holds `10=`. */
  lemma WireTrailer(m: Message, st: Stamp)
    requires Encodable(m, st)
    ensures EndsInTrailer(Encode(m, st).value)
    ensures Clean(Encode(m, st).value) <==> !HasTag(HeaderAndBody(m, st))
  {
    hide Body, Pad3, Dec, TrailerText, EndsInTrailer, Clean, HasTag, Sum;
    EndsInSoh(m, st);
    var w := WireText(m, st);
    TextTrailer(HeaderAndBody(m, st), Pad3(CheckSum(m, st)));
  }

  lemma TextTrailer(full: string, digits: string)
    requires full != [] && full[|full| - 1] == SOH
    requires |digits| == 3 && forall i :: 0 <= i < 3 ==> IsDigit(digits[i])
    requires IsAscii(full + TrailerText(digits))
    ensures EndsInTrailer(Ascii(full + TrailerText(digits)))
    ensures Clean(Ascii(full + TrailerText(digits))) <==> !HasTag(full)
  {
    var trailer := TrailerText(digits);
    var text := full + trailer;
    assert trailer[0] == '1' && trailer[1] == '0' && trailer[2] == '=' && trailer[6] == SOH;
    forall i: nat | i + 7 < |text| ensures TagAt(Ascii(text), i) == TagText(full, i) {
      assert text[|full| - 1] == SOH;
    }
    assert forall i: nat :: TagText(full, i) ==> i + 7 < |text|;
  }

  lemma EndsInSoh(m: Message, st: Stamp)
    ensures HeaderAndBody(m, st) != [] && HeaderAndBody(m, st)[|HeaderAndBody(m, st)| - 1] == SOH
  {
    hide Render, Custom, Dec;
    RenderEndsInSoh(BodyFields(m, st));
  }

  lemma {:induction false} RenderEndsInSoh(fs: seq<Field>)
    requires fs != []
    ensures Render(fs) != [] && Render(fs)[|Render(fs)| - 1] == SOH
  {
    if |fs| > 1 {
      RenderEndsInSoh(fs[1..]);
    }
  }

  lemma HeaderHasTag(m: Message, st: Stamp)
    ensures HasTag(HeaderAndBody(m, st)) <==> HasTag(Body(m, st))
  {
    hide Body, HeaderText, HasTag, Dec;
    HeaderTextHasTag(Dec(|Body(m, st)|), Body(m, st));
  }

  lemma HeaderTextHasTag(length: string, body: string)
    requires '=' !in length
    ensures HasTag(HeaderText(length, body)) <==> HasTag(body)
  {
    hide HasTag;
    HasTagAcrossSoh("8=FIX.4.4", "9=" + length + [SOH] + body);
    HasTagAcrossSoh("9=" + length, body);
    TagAroundEquals("9", length);
    assert "9" + "=" + length == "9=" + length;
    TagAroundEquals("8", "FIX.4.4");
    assert "8" + "=" + "FIX.4.4" == "8=FIX.4.4";
    NoEquals(length);
    NoEquals("FIX.4.4");
  }

  lemma NoEquals(s: string)
    requires '=' !in s
    ensures !HasTag(s)
  {
  }

  lemma RecoverableIff(m: Message, st: Stamp)
    requires Encodable(m, st) && Distinct(m.fields)
    ensures Recoverable(m, st)
            <==> Clean(Encode(m, st).value) && Decode(Encode(m, st).value) == Expected(m, st)
  {
    hide BodyFields, HasTag, FieldText, Clean, Decode, AllFields, EndsInTen, Distinct;
    RoundTrip(m, st);
    WireTrailer(m, st);
    HeaderHasTag(m, st);
    RenderHasTag(BodyFields(m, st));
    forall f ensures HasTag(FieldText(f)) <==> HasTag(f.value) || EndsInTen(f.tag) {
      FieldHasTag(f);
    }
  }

  // ---------- End to end ----------

  /** Every message, once, in order, with its type and every field in wire order. */
  function ExpectedAll(sender: string, target: string, outbox: seq<Outgoing>): seq<Message> {
    seq(|outbox|, i requires 0 <= i < |outbox| => Expected(outbox[i].msg, StampAt(sender, target, outbox, i)))
  }

  function Expected(m: Message, st: Stamp): Message {
    Message(m.msgType, if Encodable(m, st) then AllFields(m, st) else [])
  }

  /** From one connector's socket, through any chunking, to the other connector's read loop:
      everything arrives if and only if every message sent is recoverable. */
  lemma EndToEnd(sender: string, target: string, outbox: seq<Outgoing>, socket: seq<bytes>, chunks: seq<bytes>)
    requires IsLog(sender, target, outbox, socket)
    requires Flatten(chunks) == Flatten(socket)
    ensures Receive([], chunks).1 == []
    ensures DecodeAll(Receive([], chunks).0) == ExpectedAll(sender, target, outbox)
            <==> forall i :: 0 <= i < |outbox| ==> Recoverable(outbox[i].msg, StampAt(sender, target, outbox, i))
  {
    hide EndsInTrailer, Clean, Recoverable, Decode, Expected, Drain, Flatten, Receive;
    ChunkIndependence(chunks);
    var n := |outbox|;
    var expected := ExpectedAll(sender, target, outbox);
    var ok := seq(n, i requires 0 <= i < n => Recoverable(outbox[i].msg, StampAt(sender, target, outbox, i)));
    forall i | 0 <= i < n
      ensures EndsInTrailer(socket[i])
      ensures ok[i] <==> Clean(socket[i]) && Decode(socket[i]) == expected[i]
    {
      MessageArrives(outbox[i].msg, StampAt(sender, target, outbox, i), socket[i]);
    }
    StreamIff(socket, expected, ok);
    assert (forall i :: 0 <= i < n ==> ok[i])
           <==> forall i :: 0 <= i < n ==> Recoverable(outbox[i].msg, StampAt(sender, target, outbox, i));
  }

  lemma MessageArrives(m: Message, st: Stamp, w: bytes)
    requires IsWire(m, st, w)
    ensures EndsInTrailer(w)
    ensures Recoverable(m, st) <==> Clean(w) && Decode(w) == Expected(m, st)
  {
    WireTrailer(m, st);
    RecoverableIff(m, st);
  }

  lemma StreamIff(socket: seq<bytes>, expected: seq<Message>, ok: seq<bool>)
    requires |expected| == |ok| == |socket|
    requires forall i :: 0 <= i < |socket| ==> EndsInTrailer(socket[i])
    requires forall i :: 0 <= i < |ok| ==> (ok[i] <==> Clean(socket[i]) && Decode(socket[i]) == expected[i])
    ensures Drain(Flatten(socket)).1 == []
    ensures DecodeAll(Drain(Flatten(socket)).0) == expected <==> forall i :: 0 <= i < |ok| ==> ok[i]
  {
    hide EndsInTrailer, Clean, Decode, Drain, Flatten, DecodeAll;
    DrainStream(socket);
    var frames := Drain(Flatten(socket)).0;
    DecodeAllAt(frames);
    if |frames| == |socket| {
      assert frames == socket;
      assert forall i :: 0 <= i < |socket| ==> DecodeAll(frames)[i] == Decode(socket[i]);
    } else {
      assert exists w :: w in socket && !Clean(w);
    }
  }

  /** What the receiving application sees: each field it was sent and nothing else beyond the session's own tags, which
      name the two ends, number the messages consecutively and give the time. */
  lemma ApplicationSees(sender: string, target: string, outbox: seq<Outgoing>, got: seq<Message>, i: nat)
    requires got == ExpectedAll(sender, target, outbox) && i < |outbox| && Distinct(outbox[i].msg.fields)
    requires Encodable(outbox[i].msg, StampAt(sender, target, outbox, i))
    ensures got[i].msgType == outbox[i].msg.msgType && Custom(got[i].fields) == Custom(outbox[i].msg.fields)
    ensures forall f: Field :: f.tag !in {8, 9, 10, 35, 49, 56, 34, 52} ==>
              (f in got[i].fields <==> f in outbox[i].msg.fields)
    ensures forall f :: f in outbox[i].msg.fields && f.tag !in {8, 9, 10, 35, 49, 56, 34, 52} ==>
              Get(got[i].fields, f.tag) == f.value
    ensures Get(got[i].fields, 49) == sender && Get(got[i].fields, 56) == target
    ensures Get(got[i].fields, 34) == Dec(i + 1) && Get(got[i].fields, 52) == outbox[i].now
  {
    hide Custom, AllFields, Get, Encodable, Distinct, Dec;
    var m, st := outbox[i].msg, StampAt(sender, target, outbox, i);
    ApplicationFields(m, st);
    GetStamp(m, st);
    AllFieldsDistinct(m, st);
    var fs := AllFields(m, st);
    forall f: Field | f.tag !in {8, 9, 10, 35, 49, 56, 34, 52}
      ensures f in fs <==> f in m.fields
      ensures f in fs ==> Get(fs, f.tag) == f.value
    {
      assert f in fs <==> f in Custom(fs);
      assert f in m.fields <==> f in Custom(m.fields);
      if f in fs {
        GetMember(fs, f);
      }
    }
  }

  /** A stray `10=` in any body field cuts the message into at least two frames. */
  lemma StrayTagCutsMessage(m: Message, st: Stamp, f: Field)
    requires Encodable(m, st) && f in BodyFields(m, st)
    requires HasTag(f.value) || EndsInTen(f.tag)
    ensures |Drain(Encode(m, st).value).0| >= 2
  {
    hide HasTag, EndsInTrailer, Clean, Drain;
    FieldHasTag(f);
    RenderHasTag(BodyFields(m, st));
    HeaderHasTag(m, st);
    WireTrailer(m, st);
    DrainMessage(Encode(m, st).value);
  }
}

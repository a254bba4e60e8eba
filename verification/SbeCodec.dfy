/** The binary bus codec: a 38-byte header and the payload, and the 60-byte tick. */
module SbeCodec {
  import opened Text
  import opened Bytes

  datatype Topic =
    | APPROVED_SETUPS | UNIVERSE_UPDATE | REGIME_UPDATE | FEED_STATUS | CANDIDATE_SIGNAL | VALIDATED_SIGNAL
    | RISK_DECISION | TRADE_PLAN | RECONCILIATION_STATUS | ORDER_SUBMITTED | ORDER_UPDATE | FILL_EVENT
    | EXECUTION_QUALITY | POSITION_UPDATE | EXIT_TRIGGERED | TRADE_CLOSED | SYSTEM_STATE | PSA_ALERT
    | HALT_COMMAND | RESUME_COMMAND | DAILY_PNL | CHANGE_PROPOSAL | HGL_DECISION | AUDIT_EVENT
    | AGENT_HEARTBEAT | STARVATION_ALERT | CLOCK_TICK | SESSION_START | SESSION_END | TIMER_EXPIRED
    | HEALTH_UPDATE | REPLAY_REQUEST | REPLAY_REPORT | KILL_SWITCH

  /** A topic's position in the enumeration. */
  function TopicId(t: Topic): (id: nat)
    ensures id < 34
  {
    match t
    case APPROVED_SETUPS => 0 case UNIVERSE_UPDATE => 1 case REGIME_UPDATE => 2 case FEED_STATUS => 3
    case CANDIDATE_SIGNAL => 4 case VALIDATED_SIGNAL => 5 case RISK_DECISION => 6 case TRADE_PLAN => 7
    case RECONCILIATION_STATUS => 8 case ORDER_SUBMITTED => 9 case ORDER_UPDATE => 10 case FILL_EVENT => 11
    case EXECUTION_QUALITY => 12 case POSITION_UPDATE => 13 case EXIT_TRIGGERED => 14 case TRADE_CLOSED => 15
    case SYSTEM_STATE => 16 case PSA_ALERT => 17 case HALT_COMMAND => 18 case RESUME_COMMAND => 19
    case DAILY_PNL => 20 case CHANGE_PROPOSAL => 21 case HGL_DECISION => 22 case AUDIT_EVENT => 23
    case AGENT_HEARTBEAT => 24 case STARVATION_ALERT => 25 case CLOCK_TICK => 26 case SESSION_START => 27
    case SESSION_END => 28 case TIMER_EXPIRED => 29 case HEALTH_UPDATE => 30 case REPLAY_REQUEST => 31
    case REPLAY_REPORT => 32 case KILL_SWITCH => 33
  }

  /** The reverse table, with the decoder's default for an unknown id. */
  function TopicOf(id: nat): Topic {
    match id
    case 0 => APPROVED_SETUPS case 1 => UNIVERSE_UPDATE case 2 => REGIME_UPDATE case 3 => FEED_STATUS
    case 4 => CANDIDATE_SIGNAL case 5 => VALIDATED_SIGNAL case 6 => RISK_DECISION case 7 => TRADE_PLAN
    case 8 => RECONCILIATION_STATUS case 9 => ORDER_SUBMITTED case 10 => ORDER_UPDATE case 11 => FILL_EVENT
    case 12 => EXECUTION_QUALITY case 13 => POSITION_UPDATE case 14 => EXIT_TRIGGERED case 15 => TRADE_CLOSED
    case 16 => SYSTEM_STATE case 17 => PSA_ALERT case 18 => HALT_COMMAND case 19 => RESUME_COMMAND
    case 20 => DAILY_PNL case 21 => CHANGE_PROPOSAL case 22 => HGL_DECISION case 23 => AUDIT_EVENT
    case 24 => AGENT_HEARTBEAT case 25 => STARVATION_ALERT case 26 => CLOCK_TICK case 27 => SESSION_START
    case 28 => SESSION_END case 29 => TIMER_EXPIRED case 30 => HEALTH_UPDATE case 31 => REPLAY_REQUEST
    case 32 => REPLAY_REPORT case 33 => KILL_SWITCH
    case _ => AGENT_HEARTBEAT
  }

  /** Strings are their UTF-8 bytes; the payload is the encoded JSON. */
  datatype BusMessage = BusMessage(topic: Topic, source: bytes, payload: bytes)

  const UNKNOWN: bytes := [117, 110, 107, 110, 111, 119, 110]

  function Encode(m: BusMessage): Option<bytes> {
    if |m.payload| >= 0x1_0000_0000 then None
    else Some(Zeros(16) + ToBE(TopicId(m.topic), 2) + Field(m.source, 16) + ToBE(|m.payload|, 4) + m.payload)
  }

  /** None stands for struct.error on a short header. */
  function Decode(data: bytes): Option<BusMessage> {
    if |data| < 38 then None
    else
      var source := StripNul(data[18..34]);
      var end := 38 + FromBE(data[34..38]);
      var payload := if end <= |data| then data[38..end] else data[38..];
      Some(BusMessage(TopicOf(FromBE(data[16..18])), if source == [] then UNKNOWN else source, payload))
  }

  // ---------- Topics ----------

  /** The two tables are inverse to each other, and every id fits the header field. */
  lemma TopicTablesInverse(t: Topic, id: nat)
    ensures TopicOf(TopicId(t)) == t
    ensures id < 34 ==> TopicId(TopicOf(id)) == id
  {
    IdBack(id);
  }

  lemma IdBack(id: nat)
    ensures id < 34 ==> TopicId(TopicOf(id)) == id
  {
  }

  // ---------- Round trip ----------

  /** What a source becomes on the wire and back. */
  function Received(source: bytes): bytes {
    var s := StripNul(if |source| <= 16 then source else source[..16]);
    if s == [] then UNKNOWN else s
  }

  lemma Slices(a: bytes, b: bytes, c: bytes, d: bytes, e: bytes)
    requires |a| == 16 && |b| == 2 && |c| == 16 && |d| == 4
    ensures var w := a + b + c + d + e;
            w[16..18] == b && w[18..34] == c && w[34..38] == d && w[38..] == e
  {
  }

  /** Decoding an encoded message, whatever bytes follow it, gives back topic and payload exactly,
      and the source as `Received` says. */
  lemma RoundTrip(m: BusMessage, trailing: bytes)
    requires Encode(m).Some?
    ensures Decode(Encode(m).value + trailing) == Some(BusMessage(m.topic, Received(m.source), m.payload))
  {
    hide ToBE, FromBE, StripNul, Field, Zeros, TopicId, TopicOf;
    var w := Encode(m).value;
    TopicTablesInverse(m.topic, 0);
    Powers();
    BERoundTrip(TopicId(m.topic), 2);
    BERoundTrip(|m.payload|, 4);
    Slices(Zeros(16), ToBE(TopicId(m.topic), 2), Field(m.source, 16), ToBE(|m.payload|, 4), m.payload + trailing);
    assert w + trailing == Zeros(16) + ToBE(TopicId(m.topic), 2) + Field(m.source, 16) + ToBE(|m.payload|, 4)
                           + (m.payload + trailing);
    StripField(m.source, 16);
    var data := w + trailing;
    assert data[38..38 + |m.payload|] == data[38..][..|m.payload|] == m.payload;
  }

  /** The header as it stands on the wire: 16 bytes of padding, the topic's id, 16 bytes of source, the payload's
      length, each number with its most significant byte first, and then the payload. */
  lemma HeaderLayout(m: BusMessage)
    requires Encode(m).Some?
    ensures var w := Encode(m).value;
            && |w| == 38 + |m.payload| && w[38..] == m.payload
            && (forall i :: 0 <= i < 16 ==> w[i] == 0)
            && (forall i :: 0 <= i < 16 ==> w[18 + i] == if i < |m.source| then m.source[i] else 0)
            && w[16] as nat * 256 + w[17] as nat == TopicId(m.topic)
            && w[34] as nat * 0x100_0000 + w[35] as nat * 0x1_0000 + w[36] as nat * 256 + w[37] as nat == |m.payload|
  {
    hide ToBE, FromBE, TopicId;
    var w := Encode(m).value;
    var a, b, c, d := Zeros(16), ToBE(TopicId(m.topic), 2), Field(m.source, 16), ToBE(|m.payload|, 4);
    Slices(a, b, c, d, m.payload);
    Powers();
    BERoundTrip(TopicId(m.topic), 2);
    BERoundTrip(|m.payload|, 4);
    TwoBytes(b);
    FourBytes(d);
    assert b == [w[16], w[17]] by { assert b[0] == w[16..18][0] && b[1] == w[16..18][1]; }
    assert forall i :: 0 <= i < 4 ==> d[i] == w[34..38][i] == w[34 + i];
    assert forall i :: 0 <= i < 16 ==> c[i] == w[18..34][i] == w[18 + i];
    assert forall i :: 0 <= i < 16 ==> a[i] == w[i];
  }

  lemma TwoBytes(b: bytes)
    requires |b| == 2
    ensures FromBE(b) == b[0] as nat * 256 + b[1] as nat
  {
    FirstIsHighest(b);
    FirstIsHighest(b[1..]);
    assert b[1..][1..] == [];
  }

  lemma FourBytes(b: bytes)
    requires |b| == 4
    ensures FromBE(b) == b[0] as nat * 0x100_0000 + b[1] as nat * 0x1_0000 + b[2] as nat * 256 + b[3] as nat
  {
    FirstIsHighest(b);
    FirstIsHighest(b[1..]);
    TwoBytes(b[2..]);
    assert b[1..][1..] == b[2..] && Pow256(1) == 256 && Pow256(3) == 0x100_0000;
    Powers();
  }

  /** The source survives exactly when it is non-empty, at most 16 bytes and does not end in NUL; a second trip changes
      nothing more. A source of no bytes, or of NULs only in its first 16, is received as "unknown". */
  lemma SourceSurvives(source: bytes)
    ensures (forall i :: 0 <= i < |source| && i < 16 ==> source[i] == 0) ==> Received(source) == Ascii("unknown")
    ensures Received(source) == source <==> source != [] && |source| <= 16 && source[|source| - 1] != 0
    ensures Received(Received(source)) == Received(source)
  {
    if forall i :: 0 <= i < |source| && i < 16 ==> source[i] == 0 {
      OnlyNuls(if |source| <= 16 then source else source[..16]);
      assert Ascii("unknown") == UNKNOWN;
    }
    hide StripNul;
    StripFixed(source);
    var s := StripNul(if |source| <= 16 then source else source[..16]);
    StripFixed(s);
    StripFixed(UNKNOWN);
  }

  // ---------- The 60-byte tick ----------

  datatype Tick = Tick(symbol: bytes, tsNs: int, bid: Bits64, ask: Bits64, last: Bits64, volume: int, sequence: int)

  predicate FitsInt64(x: int) {
    -0x8000_0000_0000_0000 <= x < 0x8000_0000_0000_0000
  }

  function TwosComplement(x: int): Bits64
    requires FitsInt64(x)
  {
    if x < 0 then x + 0x1_0000_0000_0000_0000 else x
  }

  function FromTwosComplement(n: nat): int {
    if n < 0x8000_0000_0000_0000 then n else n - 0x1_0000_0000_0000_0000
  }

  /** None stands for struct.error on a number out of range. */
  function EncodeTick(t: Tick): Option<bytes> {
    if FitsInt64(t.tsNs) && 0 <= t.volume < 0x1_0000_0000 && FitsInt64(t.sequence) then
      Some(Field(t.symbol, 8) + ToBE(TwosComplement(t.tsNs), 8) + ToBE(t.bid, 8) + ToBE(t.ask, 8) + ToBE(t.last, 8)
           + ToBE(t.volume, 4) + Zeros(4) + ToBE(TwosComplement(t.sequence), 8) + Zeros(4))
    else None
  }

  datatype RawTick = RawTick(symbol: bytes, tsNs: int, bid: nat, ask: nat, last: nat, volume: int, sequence: int)

  function DecodeTick(data: bytes): Option<RawTick> {
    if |data| < 60 then None
    else
      Some(RawTick(StripNul(data[0..8]), FromTwosComplement(FromBE(data[8..16])), FromBE(data[16..24]),
                   FromBE(data[24..32]), FromBE(data[32..40]), FromBE(data[40..44]),
                   FromTwosComplement(FromBE(data[48..56]))))
  }

  lemma TickSlices(a: bytes, b: bytes, c: bytes, d: bytes, e: bytes, f: bytes, g: bytes, h: bytes, i: bytes)
    requires |a| == |b| == |c| == |d| == |e| == |h| == 8 && |f| == |g| == |i| == 4
    ensures var w := a + b + c + d + e + f + g + h + i;
            && |w| == 60 && w[0..8] == a && w[8..16] == b && w[16..24] == c && w[24..32] == d && w[32..40] == e
            && w[40..44] == f && w[48..56] == h
  {
  }

  /** Every in-range tick encodes to exactly 60 bytes and comes back with every number exact. */
  lemma TickRoundTrip(t: Tick)
    ensures EncodeTick(t).Some?
            <==> -0x8000_0000_0000_0000 <= t.tsNs < 0x8000_0000_0000_0000 && 0 <= t.volume < 0x1_0000_0000
                 && -0x8000_0000_0000_0000 <= t.sequence < 0x8000_0000_0000_0000
    ensures EncodeTick(t).Some? ==>
              && |EncodeTick(t).value| == 60
              && DecodeTick(EncodeTick(t).value)
                 == Some(RawTick(StripNul(if |t.symbol| <= 8 then t.symbol else t.symbol[..8]),
                                 t.tsNs, t.bid, t.ask, t.last, t.volume, t.sequence))
  {
    hide ToBE, FromBE, StripNul, Field, Zeros;
    if EncodeTick(t).Some? {
      Powers();
      TickSlices(Field(t.symbol, 8), ToBE(TwosComplement(t.tsNs), 8), ToBE(t.bid, 8), ToBE(t.ask, 8), ToBE(t.last, 8),
                 ToBE(t.volume, 4), Zeros(4), ToBE(TwosComplement(t.sequence), 8), Zeros(4));
      BERoundTrip(TwosComplement(t.tsNs), 8);
      BERoundTrip(t.bid, 8);
      BERoundTrip(t.ask, 8);
      BERoundTrip(t.last, 8);
      BERoundTrip(t.volume, 4);
      BERoundTrip(TwosComplement(t.sequence), 8);
      StripField(t.symbol, 8);
    }
  }

  /** The tick as it stands on the wire: which bytes hold which number. */
  lemma TickLayout(t: Tick)
    requires EncodeTick(t).Some?
    ensures var w := EncodeTick(t).value;
            && |w| == 60
            && (forall i :: 0 <= i < 8 ==> w[i] == if i < |t.symbol| then t.symbol[i] else 0)
            && FromBE(w[8..16]) == t.tsNs % 0x1_0000_0000_0000_0000
            && FromBE(w[16..24]) == t.bid && FromBE(w[24..32]) == t.ask && FromBE(w[32..40]) == t.last
            && FromBE(w[40..44]) == t.volume && FromBE(w[48..56]) == t.sequence % 0x1_0000_0000_0000_0000
  {
    hide ToBE, FromBE;
    Powers();
    TickSlices(Field(t.symbol, 8), ToBE(TwosComplement(t.tsNs), 8), ToBE(t.bid, 8), ToBE(t.ask, 8), ToBE(t.last, 8),
               ToBE(t.volume, 4), Zeros(4), ToBE(TwosComplement(t.sequence), 8), Zeros(4));
    BERoundTrip(TwosComplement(t.tsNs), 8);
    BERoundTrip(t.bid, 8);
    BERoundTrip(t.ask, 8);
    BERoundTrip(t.last, 8);
    BERoundTrip(t.volume, 4);
    BERoundTrip(TwosComplement(t.sequence), 8);
    var w := EncodeTick(t).value;
    assert forall i :: 0 <= i < 8 ==> Field(t.symbol, 8)[i] == w[0..8][i] == w[i];
  }
}

/** The kernel-bypass feed: 64-byte frames in a byte ring of 65536 slots. */
module KernelBypass {
  import opened Text
  import opened Bytes
  import opened BitMask

  const MAGIC: nat := 0xDEADBEEF
  const FRAME_SIZE: nat := 64
  const RING_CAPACITY: nat := 65536
  const TWO64: nat := 0x1_0000_0000_0000_0000
  const TWO32: nat := 0x1_0000_0000

  /** A tick handed to the producer; the symbol is its UTF-8 bytes. */
  datatype Tick = Tick(symbol: bytes, timestampNs: int, bid: Bits64, ask: Bits64, last: Bits64, volume: int)

  /** A tick handed out by the consumer. */
  datatype Polled = Polled(symbol: bytes, timestampNs: nat, bid: nat, ask: nat, last: nat, volume: nat)

  function Cut8(b: bytes): bytes {
    if |b| > 8 then b[..8] else b
  }

  /** The frame layout; integers are stored modulo their width. */
  function FrameBytes(seqNum: nat, t: Tick): (raw: bytes)
    ensures |raw| == FRAME_SIZE
  {
    ToLE(MAGIC, 4) + ToLE(seqNum % TWO64, 8) + ToLE(t.timestampNs % TWO64, 8) + [|Cut8(t.symbol)| as byte]
    + Field(t.symbol, 8) + ToLE(t.bid, 8) + ToLE(t.ask, 8) + ToLE(t.last, 8) + ToLE(t.volume % TWO32, 4) + Zeros(7)
  }

  function MagicOf(raw: bytes): nat
    requires |raw| == FRAME_SIZE
  {
    FromLE(raw[0..4])
  }

  function SequenceOf(raw: bytes): nat
    requires |raw| == FRAME_SIZE
  {
    FromLE(raw[4..12])
  }

  function TickOf(raw: bytes): Polled
    requires |raw| == FRAME_SIZE
  {
    var symbol := BeforeNul(raw[21..29]);
    var len := raw[20] as nat;
    Polled(if len < |symbol| then symbol[..len] else symbol, FromLE(raw[12..20]),
           FromLE(raw[29..37]), FromLE(raw[37..45]), FromLE(raw[45..53]), FromLE(raw[53..57]))
  }

  /** What the consumer sees of a produced tick. */
  function Seen(t: Tick): Polled {
    Polled(BeforeNul(Cut8(t.symbol)), t.timestampNs % TWO64, t.bid, t.ask, t.last, t.volume % TWO32)
  }

  lemma FrameSlices(a: bytes, b: bytes, c: bytes, d: byte, e: bytes, f: bytes, g: bytes, h: bytes, i: bytes, j: bytes)
    requires |a| == |i| == 4 && |b| == |c| == |e| == |f| == |g| == |h| == 8 && |j| == 7
    ensures var w := a + b + c + [d] + e + f + g + h + i + j;
            && |w| == 64 && w[0..4] == a && w[4..12] == b && w[12..20] == c && w[20] == d && w[21..29] == e
            && w[29..37] == f && w[37..45] == g && w[45..53] == h && w[53..57] == i
  {
  }

  /** Every field of a frame reads back: the magic, the sequence modulo 2^64, and the tick as `Seen`. */
  lemma FrameRoundTrip(seqNum: nat, t: Tick)
    ensures var raw := FrameBytes(seqNum, t);
            MagicOf(raw) == MAGIC && SequenceOf(raw) == seqNum % TWO64 && TickOf(raw) == Seen(t)
  {
    hide ToLE, FromLE, Field, BeforeNul, Zeros;
    Powers();
    FrameSlices(ToLE(MAGIC, 4), ToLE(seqNum % TWO64, 8), ToLE(t.timestampNs % TWO64, 8), |Cut8(t.symbol)| as byte,
                Field(t.symbol, 8), ToLE(t.bid, 8), ToLE(t.ask, 8), ToLE(t.last, 8), ToLE(t.volume % TWO32, 4),
                    Zeros(7));
    LERoundTrip(MAGIC, 4);
    LERoundTrip(seqNum % TWO64, 8);
    LERoundTrip(t.timestampNs % TWO64, 8);
    LERoundTrip(t.bid, 8);
    LERoundTrip(t.ask, 8);
    LERoundTrip(t.last, 8);
    LERoundTrip(t.volume % TWO32, 4);
    SymbolField(t.symbol);
  }

  /** The frame as the other side lays it over the ring: which bytes hold which number. */
  lemma FrameLayout(seqNum: nat, t: Tick)
    ensures var raw := FrameBytes(seqNum, t);
            && FromLE(raw[0..4]) == 0xDEADBEEF && FromLE(raw[4..12]) == seqNum % 0x1_0000_0000_0000_0000
            && FromLE(raw[12..20]) == t.timestampNs % 0x1_0000_0000_0000_0000
            && raw[20] as nat == (if |t.symbol| > 8 then 8 else |t.symbol|)
            && (forall i :: 0 <= i < 8 ==> raw[21 + i] == if i < |t.symbol| then t.symbol[i] else 0)
            && FromLE(raw[29..37]) == t.bid && FromLE(raw[37..45]) == t.ask && FromLE(raw[45..53]) == t.last
            && FromLE(raw[53..57]) == t.volume % 0x1_0000_0000 && |raw| == 64
  {
    hide ToLE, FromLE, BeforeNul, Zeros;
    FrameRoundTrip(seqNum, t);
    FrameSlices(ToLE(MAGIC, 4), ToLE(seqNum % TWO64, 8), ToLE(t.timestampNs % TWO64, 8), |Cut8(t.symbol)| as byte,
                Field(t.symbol, 8), ToLE(t.bid, 8), ToLE(t.ask, 8), ToLE(t.last, 8), ToLE(t.volume % TWO32, 4),
                Zeros(7));
    FieldBytes(t.symbol);
    var raw := FrameBytes(seqNum, t);
    assert forall i :: 0 <= i < 8 ==> raw[21 + i] == raw[21..29][i];
  }

  lemma FieldBytes(symbol: bytes)
    ensures forall i :: 0 <= i < 8 ==> Field(symbol, 8)[i] == if i < |symbol| then symbol[i] else 0
  {
  }

  lemma SymbolField(symbol: bytes)
    ensures BeforeNul(Field(symbol, 8)) == BeforeNul(Cut8(symbol))
    ensures |BeforeNul(Cut8(symbol))| <= |Cut8(symbol)|
  {
    if |symbol| < 8 {
      BeforeNulPadding(symbol, 8 - |symbol|);
    } else {
      assert |symbol| == 8 ==> symbol[..8] == symbol;
    }
  }

  /** The symbol survives exactly when it is at most eight bytes and holds no NUL. */
  lemma SymbolSurvives(t: Tick)
    ensures Seen(t).symbol == t.symbol <==> |t.symbol| <= 8 && 0 !in t.symbol
  {
    hide BeforeNul;
    BeforeNulPadding(t.symbol, 0);
    var s := BeforeNul(Cut8(t.symbol));
  }

  // ---------- The ring ----------

  function Slot(n: nat): (j: nat)
    ensures j < RING_CAPACITY
  {
    n % RING_CAPACITY
  }

  /** The code's mask gives the remainder, so frames lie one after another and never straddle the end. */
  lemma MaskIsSlot(n: nat)
    ensures And(n, RING_CAPACITY - 1) == Slot(n)
  {
    assert Pow2(4) == 16;
    assert Pow2(8) == 16 * Pow2(4);
    assert Pow2(12) == 16 * Pow2(8);
    assert Pow2(16) == 16 * Pow2(12);
    MaskIsMod(n, 16);
  }

  lemma SlotsApart(a: nat, b: nat)
    requires a < b < a + RING_CAPACITY
    ensures Slot(a) != Slot(b)
  {
    ResidueApart(a, b, RING_CAPACITY);
  }

  function SlotBytes(mem: bytes, j: nat): (raw: bytes)
    requires |mem| == FRAME_SIZE * RING_CAPACITY && j < RING_CAPACITY
    ensures |raw| == FRAME_SIZE
  {
    mem[j * FRAME_SIZE..(j + 1) * FRAME_SIZE]
  }

  /** The ring holds the frames of the last 65536 ticks, and zeros where none was ever written. */
  ghost predicate Holds(mem: bytes, produced: seq<Tick>) {
    && |mem| == FRAME_SIZE * RING_CAPACITY
    && (forall n :: 0 <= n < |produced| && |produced| - n <= RING_CAPACITY ==>
        SlotBytes(mem, Slot(n)) == FrameBytes(n, produced[n]))
    && (forall j :: |produced| <= j < RING_CAPACITY ==> SlotBytes(mem, j) == Zeros(FRAME_SIZE))
  }

  function WriteSlot(mem: bytes, j: nat, raw: bytes): (m: bytes)
    requires |mem| == FRAME_SIZE * RING_CAPACITY && j < RING_CAPACITY && |raw| == FRAME_SIZE
    ensures |m| == |mem|
  {
    mem[..j * FRAME_SIZE] + raw + mem[(j + 1) * FRAME_SIZE..]
  }

  /** Writing one slot changes no other: distinct slots do not overlap. */
  lemma WriteSlotFrame(mem: bytes, j: nat, raw: bytes, k: nat)
    requires |mem| == FRAME_SIZE * RING_CAPACITY && j < RING_CAPACITY && k < RING_CAPACITY && |raw| == FRAME_SIZE
    ensures SlotBytes(WriteSlot(mem, j, raw), k) == if k == j then raw else SlotBytes(mem, k)
  {
  }

  lemma ProduceHolds(mem: bytes, produced: seq<Tick>, t: Tick)
    requires Holds(mem, produced)
    ensures Holds(WriteSlot(mem, Slot(|produced|), FrameBytes(|produced|, t)), produced + [t])
  {
    hide FrameBytes, SlotBytes, WriteSlot, Slot;
    var w := |produced|;
    var m := WriteSlot(mem, Slot(w), FrameBytes(w, t));
    SlotSmall(w);
    forall k | 0 <= k < RING_CAPACITY
      ensures SlotBytes(m, k) == if k == Slot(w) then FrameBytes(w, t) else SlotBytes(mem, k)
    {
      WriteSlotFrame(mem, Slot(w), FrameBytes(w, t), k);
    }
    forall n | 0 <= n < w && w - n < RING_CAPACITY ensures Slot(n) != Slot(w) {
      SlotsApart(n, w);
    }
  }

  lemma SlotSmall(n: nat)
    ensures n < RING_CAPACITY ==> Slot(n) == n
    ensures n >= RING_CAPACITY ==> Slot(n) == Slot(n - RING_CAPACITY)
  {
  }

  /** A frame is found exactly while its tick is produced and not yet lapped. */
  lemma FoundIff(mem: bytes, produced: seq<Tick>, r: nat)
    requires Holds(mem, produced) && |produced| <= TWO64 && r < TWO64
    ensures var raw := SlotBytes(mem, Slot(r));
            && (MagicOf(raw) == MAGIC && SequenceOf(raw) == r <==> r < |produced| <= r + RING_CAPACITY)
            && (r < |produced| <= r + RING_CAPACITY ==> TickOf(raw) == Seen(produced[r]))
  {
    hide FrameBytes, SlotBytes, Slot, MagicOf, SequenceOf, TickOf, Seen;
    var raw := SlotBytes(mem, Slot(r));
    SlotSmall(r);
    if Slot(r) >= |produced| {
      ZeroMagic();
    } else {
      var n := Latest(|produced|, r);
      assert raw == FrameBytes(n, produced[n]);
      FrameRoundTrip(n, produced[n]);
      assert n % TWO64 == n;
    }
  }

  lemma ZeroMagic()
    ensures MagicOf(Zeros(FRAME_SIZE)) != MAGIC
  {
    FromLEZeros(Zeros(FRAME_SIZE)[0..4]);
  }

  /** The last of the first `count` sequence numbers that shares r's slot. */
  lemma Latest(count: nat, r: nat) returns (n: nat)
    requires Slot(r) < count
    ensures n < count && count - n <= RING_CAPACITY && Slot(n) == Slot(r)
    ensures n == r <==> r < count <= r + RING_CAPACITY
  {
    var j := Slot(r);
    n := j + (count - 1 - j) / RING_CAPACITY * RING_CAPACITY;
    if r < n && n < r + RING_CAPACITY { SlotsApart(r, n); }
    if n < r && r < n + RING_CAPACITY { SlotsApart(n, r); }
  }

  // ---------- The feed ----------

  datatype Action = Produce(tick: Tick) | PollNext

  /** The feed as a queue: the ticks produced, and how many have been handed out. */
  datatype Queue = Queue(produced: seq<Tick>, taken: nat)

  function Act(q: Queue, a: Action): Queue {
    match a
    case Produce(t) => q.(produced := q.produced + [t])
    case PollNext => if q.taken < |q.produced| <= q.taken + RING_CAPACITY then q.(taken := q.taken + 1) else q
  }

  class Feed {
    const mem: array<byte>
    var writeSeq: nat
    var readSeq: nat

    ghost var produced: seq<Tick>    // every tick written
    ghost var polled: seq<Polled>    // every tick handed out

    /** What was handed out is what was produced, in order, from the first tick on. */
    ghost predicate Valid()
      reads this, mem
    {
      && mem.Length == FRAME_SIZE * RING_CAPACITY
      && Holds(mem[..], produced) && writeSeq == |produced| <= TWO64
      && readSeq == |polled| <= writeSeq
      && forall i :: 0 <= i < |polled| ==> polled[i] == Seen(produced[i])
    }

    ghost function AsQueue(): Queue
      reads this
    {
      Queue(produced, readSeq)
    }

    constructor ()
      ensures Valid() && produced == [] && polled == []
    {
      mem := new byte[FRAME_SIZE * RING_CAPACITY](_ => 0);
      writeSeq, readSeq := 0, 0;
      produced, polled := [], [];
      new;
      forall j | 0 <= j < RING_CAPACITY ensures SlotBytes(mem[..], j) == Zeros(FRAME_SIZE) {}
    }

    function FrameOffset(n: nat): (off: nat)
      ensures off == Slot(n) * FRAME_SIZE
    {
      MaskIsSlot(n);
      And(n, RING_CAPACITY - 1) * FRAME_SIZE
    }

    /** The sequence field is 64 bits wide, so at most 2^64 ticks are produced. */
    method ProduceTick(t: Tick)
      requires Valid() && writeSeq < TWO64
      modifies `writeSeq, `produced, mem
      ensures Valid() && AsQueue() == Act(old(AsQueue()), Produce(t))
    {
      hide FrameBytes, SlotBytes, Slot, Holds;
      var offset := FrameOffset(writeSeq);
      var raw := FrameBytes(writeSeq, t);
      forall i | 0 <= i < FRAME_SIZE {
        mem[offset + i] := raw[i];
      }
      ProduceHolds(old(mem[..]), produced, t);
      assert mem[..] == WriteSlot(old(mem[..]), Slot(writeSeq), raw);
      writeSeq := writeSeq + 1;
      produced := produced + [t];
    }

    /** One attempt of the polling loop: it finds the next tick exactly while that tick is produced and not
        yet lapped, and otherwise hands out nothing and stays where it is. */
    method PollOnce() returns (found: Option<Polled>)
      requires Valid() && readSeq < TWO64
      modifies `readSeq, `polled
      ensures Valid() && AsQueue() == Act(old(AsQueue()), PollNext)
      ensures found.Some? <==> old(readSeq) < writeSeq <= old(readSeq) + RING_CAPACITY
      ensures found.Some? ==> found.value == Seen(produced[old(readSeq)]) && polled == old(polled) + [found.value]
      ensures found.None? ==> readSeq == old(readSeq) && polled == old(polled)
    {
      hide SlotBytes, Slot, Holds, MagicOf, SequenceOf, TickOf, Seen;
      var offset := FrameOffset(readSeq);
      var raw := mem[offset..offset + FRAME_SIZE];
      RawIsSlot(mem[..], readSeq);
      assert raw == SlotBytes(mem[..], Slot(readSeq));
      FoundIff(mem[..], produced, readSeq);
      if MagicOf(raw) == MAGIC && SequenceOf(raw) == readSeq {
        readSeq := readSeq + 1;
        polled := polled + [TickOf(raw)];
        return Some(TickOf(raw));
      }
      return None;
    }
  }

  lemma RawIsSlot(mem: bytes, n: nat)
    requires |mem| == FRAME_SIZE * RING_CAPACITY
    ensures mem[Slot(n) * FRAME_SIZE..Slot(n) * FRAME_SIZE + FRAME_SIZE] == SlotBytes(mem, Slot(n))
  {
  }

  function ActAll(q: Queue, actions: seq<Action>): Queue
    decreases |actions|
  {
    if actions == [] then q else ActAll(Act(q, actions[0]), actions[1..])
  }

  /** Once the producer is more than a ring ahead of the consumer, nothing is ever handed out again. */
  lemma {:induction false} LappedForever(q: Queue, actions: seq<Action>)
    requires |q.produced| > q.taken + RING_CAPACITY
    ensures ActAll(q, actions).taken == q.taken
    decreases |actions|
  {
    if actions != [] { LappedForever(Act(q, actions[0]), actions[1..]); }
  }

  /** While the producer is never more than a ring ahead, polling as often as there are ticks empties the queue. */
  lemma {:induction false} PollingEmpties(q: Queue, polls: nat)
    requires q.taken <= |q.produced| <= q.taken + RING_CAPACITY
    ensures ActAll(q, seq(polls, _ => PollNext)).taken
        == (if q.taken + polls <= |q.produced| then q.taken + polls else |q.produced|)
    decreases polls
  {
    if polls > 0 {
      var actions := seq(polls, _ => PollNext);
      assert actions[0] == PollNext && actions[1..] == seq(polls - 1, _ => PollNext);
      PollingEmpties(Act(q, PollNext), polls - 1);
    }
  }
}

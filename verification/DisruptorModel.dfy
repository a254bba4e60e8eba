/** The disruptor as a step system: any number of producers and one consumer, interleaved at their awaits. Every await
    counts as a place to be suspended, also that of a free lock, which CPython's `asyncio.Lock` passes without
    suspending. */
module DisruptorModel {
  import opened BitMask

  /** What a producer is asked to publish. */
  datatype Message = Message(topic: string, source: string, payload: seq<nat>)

  /** What the slot holds: the message and the time it was written. */
  datatype Content = Content(msg: Message, tsNs: int)

  datatype Slot = Slot(sequence: int, content: Content)

  /** A publish call, identified by the sequence number it claimed. */
  datatype Producer =
    | Waiting(msg: Message)          // claimed, not yet past the capacity check
    | Written(content: Content)      // slot written, cursor not yet set
    | Published(content: Content)

  datatype State = State(
    slots: seq<Slot>,
    claimSeq: int,             // last sequence claimed
    cursor: int,               // last sequence published
    producers: seq<Producer>,  // by claimed sequence
    consumed: int,             // the consumer's sequence
    handling: bool,            // the consumer is inside the handler
    log: seq<Content>)         // what the handler has been given

  datatype Step =
    | Claim(msg: Message)
    | TryWrite(seqNum: nat, tsNs: int)   // the capacity check and, when it passes, the slot write
    | Publish(seqNum: nat)
    | Poll
    | Ack

  const EMPTY_SLOT := Slot(-1, Content(Message("", "", []), 0))

  /** The slot of a sequence number. */
  function Index(n: nat, size: nat): (i: nat)
    requires size > 0
    ensures i < size
  {
    n % size
  }

  function Init(size: nat): State {
    State(seq(size, _ => EMPTY_SLOT), -1, -1, [], -1, false, [])
  }

  predicate Enabled(s: State, step: Step) {
    match step
    case Claim(_) => true
    case TryWrite(n, _) => n < |s.producers| && s.producers[n].Waiting?
    case Publish(n) => n < |s.producers| && s.producers[n].Written?
    case Poll => !s.handling
    case Ack => s.handling
  }

  predicate Ready(s: State)
    requires |s.slots| > 0 && s.consumed >= -1
  {
    var next := s.consumed + 1;
    next <= s.cursor && s.slots[Index(next, |s.slots|)].sequence == next
  }

  function Next(s: State, step: Step): State
    requires |s.slots| > 0 && s.consumed >= -1 && Enabled(s, step)
  {
    match step
    case Claim(msg) =>
      s.(claimSeq := s.claimSeq + 1, producers := s.producers + [Waiting(msg)])
    case TryWrite(n, tsNs) =>
      if n - s.cursor <= |s.slots| then
        var content := Content(s.producers[n].msg, tsNs);
        s.(slots := s.slots[Index(n, |s.slots|) := Slot(n, content)], producers := s.producers[n := Written(content)])
      else s
    case Publish(n) =>
      s.(cursor := n, producers := s.producers[n := Published(s.producers[n].content)])
    case Poll =>
      if Ready(s) then
        s.(handling := true, log := s.log + [s.slots[Index(s.consumed + 1, |s.slots|)].content])
      else s
    case Ack =>
      s.(handling := false, consumed := s.consumed + 1)
  }

  // ---------- Safety under every interleaving ----------

  predicate HasWritten(s: State, n: int, content: Content) {
    0 <= n < |s.producers| && !s.producers[n].Waiting? && s.producers[n].content == content
  }

  ghost predicate Inv(s: State) {
    && |s.slots| > 0
    && s.claimSeq == |s.producers| - 1
    && -1 <= s.cursor < |s.producers|
    && (forall j :: 0 <= j < |s.slots| ==>
          s.slots[j].sequence == -1
          || (HasWritten(s, s.slots[j].sequence, s.slots[j].content) && Index(s.slots[j].sequence, |s.slots|) == j))
    && s.consumed >= -1 && |s.log| == s.consumed + 1 + (if s.handling then 1 else 0)
    && (forall i :: 0 <= i < |s.log| ==> HasWritten(s, i, s.log[i]))
  }

  lemma StepKeeps(s: State, step: Step)
    requires Inv(s) && Enabled(s, step)
    ensures Inv(Next(s, step)) && s.log <= Next(s, step).log
    ensures forall n, c :: HasWritten(s, n, c) ==> HasWritten(Next(s, step), n, c)
  {
    hide Index;
    var s' := Next(s, step);
    assert forall n, c :: HasWritten(s, n, c) ==> HasWritten(s', n, c);
    if step.TryWrite? && step.seqNum - s.cursor <= |s.slots| {
      var n := step.seqNum;
      assert HasWritten(s', n, Content(s.producers[n].msg, step.tsNs));
    }
    if step.Poll? && Ready(s) {
      assert s.slots[Index(s.consumed + 1, |s.slots|)].sequence == |s.log|;
    }
  }

  /** A run: each step is enabled in the state it meets. */
  ghost predicate IsRun(s: State, steps: seq<Step>)
    requires Inv(s)
    decreases |steps|
  {
    steps == [] || (Enabled(s, steps[0]) && (StepKeeps(s, steps[0]); IsRun(Next(s, steps[0]), steps[1..])))
  }

  ghost function Run(s: State, steps: seq<Step>): State
    requires Inv(s) && IsRun(s, steps)
    decreases |steps|
  {
    if steps == [] then s else StepKeeps(s, steps[0]); Run(Next(s, steps[0]), steps[1..])
  }

  lemma {:induction false} RunKeeps(s: State, steps: seq<Step>)
    requires Inv(s) && IsRun(s, steps)
    ensures Inv(Run(s, steps)) && s.log <= Run(s, steps).log
    decreases |steps|
  {
    if steps != [] {
      StepKeeps(s, steps[0]);
      RunKeeps(Next(s, steps[0]), steps[1..]);
    }
  }

  lemma InitInv(size: nat)
    requires size > 0
    ensures Inv(Init(size))
  {
  }

  // ---------- What was claimed is what is delivered ----------

  /** The messages a run's publish calls were made with, in the order they claimed. */
  function Claimed(steps: seq<Step>): seq<Message> {
    if steps == [] then []
    else (if steps[0].Claim? then [steps[0].msg] else []) + Claimed(steps[1..])
  }

  function MsgOf(p: Producer): Message {
    if p.Waiting? then p.msg else p.content.msg
  }

  /** Publish call i carries message i, waiting, written or published, with the time of its write step. */
  ghost predicate Carries(s: State, msgs: seq<Message>, steps: seq<Step>) {
    && |s.producers| == |msgs|
    && forall i :: 0 <= i < |msgs| ==>
         && MsgOf(s.producers[i]) == msgs[i]
         && (!s.producers[i].Waiting? ==> TryWrite(i, s.producers[i].content.tsNs) in steps)
  }

  lemma CarriesStep(s: State, step: Step, msgs: seq<Message>, steps: seq<Step>)
    requires Inv(s) && Enabled(s, step) && Carries(s, msgs, steps) && step in steps
    ensures Carries(Next(s, step), msgs + if step.Claim? then [step.msg] else [], steps)
  {
    hide Inv, Index;
  }

  lemma {:induction false} CarriesRun(s: State, run: seq<Step>, msgs: seq<Message>, steps: seq<Step>)
    requires Inv(s) && IsRun(s, run) && Carries(s, msgs, steps) && forall step :: step in run ==> step in steps
    ensures Carries(Run(s, run), msgs + Claimed(run), steps)
    decreases |run|
  {
    if run == [] {
      assert msgs + [] == msgs;
    } else {
      hide Inv, Carries, Next, Enabled;
      var here := if run[0].Claim? then [run[0].msg] else [];
      StepKeeps(s, run[0]);
      CarriesStep(s, run[0], msgs, steps);
      CarriesRun(Next(s, run[0]), run[1..], msgs + here, steps);
      assert msgs + here + Claimed(run[1..]) == msgs + (here + Claimed(run[1..]));
    }
  }

  lemma ClaimedRun(size: nat, steps: seq<Step>)
    requires size > 0 && Inv(Init(size)) && IsRun(Init(size), steps)
    ensures Carries(Run(Init(size), steps), Claimed(steps), steps)
  {
    hide Inv, IsRun, Run;
    CarriesRun(Init(size), steps, [], steps);
    assert [] + Claimed(steps) == Claimed(steps);
  }

  /** Under every interleaving the handler has been given the claimed messages from the first one on, in the order they
      were claimed: no gap, no duplicate, each with its own text and the time of its own write. */
  lemma DeliveryInOrder(size: nat, steps: seq<Step>)
    requires size > 0 && Inv(Init(size)) && IsRun(Init(size), steps)
    ensures var s := Run(Init(size), steps);
            && |s.log| <= |Claimed(steps)| && s.claimSeq == |Claimed(steps)| - 1
            && forall i :: 0 <= i < |s.log| ==>
                 s.log[i].msg == Claimed(steps)[i] && TryWrite(i, s.log[i].tsNs) in steps
  {
    hide IsRun, Run, Claimed, Index;
    RunKeeps(Init(size), steps);
    ClaimedRun(size, steps);
    LogBounded(Run(Init(size), steps));
  }

  // ---------- A lost message ----------

  /** Message m was written, has not been delivered and has been overwritten. */
  predicate Gone(s: State, m: nat) {
    && |s.slots| > 0 && |s.log| <= m < |s.producers| && !s.producers[m].Waiting?
    && s.slots[Index(m, |s.slots|)].sequence != m
  }

  /** The message the consumer waits for is gone. */
  predicate Lost(s: State) {
    Gone(s, |s.log|)
  }

  lemma GoneStep(s: State, step: Step, m: nat)
    requires Inv(s) && Enabled(s, step) && Gone(s, m)
    ensures Gone(Next(s, step), m) && (m == |s.log| ==> Next(s, step).log == s.log)
  {
    hide Index;
  }

  /** Once the awaited message has been overwritten, nothing is ever delivered again. */
  lemma {:induction false} LostForever(s: State, steps: seq<Step>)
    requires Inv(s) && Lost(s) && IsRun(s, steps)
    ensures Run(s, steps).log == s.log
    decreases |steps|
  {
    if steps != [] {
      StepKeeps(s, steps[0]);
      GoneStep(s, steps[0], |s.log|);
      LostForever(Next(s, steps[0]), steps[1..]);
    }
  }

  /** A write that passes the capacity check: it may stay within a ring of the consumer, or lap it. */
  predicate Passes(s: State, step: Step) {
    step.TryWrite? && step.seqNum - s.cursor <= |s.slots|
  }

  predicate Laps(s: State, step: Step) {
    Passes(s, step) && step.seqNum >= |s.log| + |s.slots|
  }

  /** Message n stands in the slot of an earlier message that is still to be written over it. */
  predicate Clash(s: State, m: nat, n: nat) {
    && |s.slots| > 0 && |s.log| <= m < n < |s.producers| && s.producers[m].Waiting? && !s.producers[n].Waiting?
    && Index(m, |s.slots|) == Index(n, |s.slots|)
  }

  /** Some message up to n can never be delivered. */
  ghost predicate Doomed(s: State, n: nat) {
    (exists m: nat :: m <= n && Gone(s, m)) || exists m: nat :: Clash(s, m, n)
  }

  /** The undelivered message whose slot n takes, less than a ring ahead of the consumer. */
  lemma Victim(n: nat, delivered: nat, size: nat) returns (m: nat)
    requires size > 0 && n >= delivered + size
    ensures delivered <= m < n && Index(m, size) == Index(n, size)
  {
    m := n - size;
    SameResidue(m, size);
  }

  lemma LappingDooms(s: State, step: Step)
    requires Inv(s) && Enabled(s, step) && Laps(s, step)
    ensures Doomed(Next(s, step), step.seqNum)
  {
    hide Index;
    var m := Victim(step.seqNum, |s.log|, |s.slots|);
    var s' := Next(s, step);
    assert Gone(s', m) || Clash(s', m, step.seqNum);
  }

  lemma DoomedStep(s: State, step: Step, n: nat)
    requires Inv(s) && Enabled(s, step) && Doomed(s, n)
    ensures Doomed(Next(s, step), n)
  {
    if m: nat :| m <= n && Gone(s, m) {
      GoneStep(s, step, m);
    } else {
      var m: nat :| Clash(s, m, n);
      ClashStep(s, step, m, n);
    }
  }

  /** While m is unwritten the consumer cannot pass it; when it is written, n is gone. */
  lemma ClashStep(s: State, step: Step, m: nat, n: nat)
    requires Inv(s) && Enabled(s, step) && Clash(s, m, n)
    ensures Clash(Next(s, step), m, n) || Gone(Next(s, step), n)
  {
    hide Index;
    if step.Poll? && Ready(s) {
      assert s.slots[Index(|s.log|, |s.slots|)].sequence == |s.log|;
      assert HasWritten(s, |s.log|, s.slots[Index(|s.log|, |s.slots|)].content);
    }
  }

  /** After a write that laps the consumer, no continuation ever delivers the message it wrote. */
  lemma {:induction false} LappingWriteLoses(s: State, step: Step, steps: seq<Step>)
    requires Inv(s) && Enabled(s, step) && Laps(s, step)
    requires Inv(Next(s, step)) && IsRun(Next(s, step), steps)
    ensures |Run(Next(s, step), steps).log| <= step.seqNum
  {
    LappingDooms(s, step);
    DoomedRun(Next(s, step), steps, step.seqNum);
  }

  lemma {:induction false} DoomedRun(s: State, steps: seq<Step>, n: nat)
    requires Inv(s) && Doomed(s, n) && IsRun(s, steps)
    ensures Doomed(Run(s, steps), n) && |Run(s, steps).log| <= n
    decreases |steps|
  {
    hide Gone, Clash;
    if steps != [] {
      StepKeeps(s, steps[0]);
      DoomedStep(s, steps[0], n);
      hide Doomed;
      DoomedRun(Next(s, steps[0]), steps[1..], n);
    } else {
      DoomedBound(s, n);
    }
  }

  lemma DoomedBound(s: State, n: nat)
    requires Doomed(s, n)
    ensures |s.log| <= n
  {
  }

  // ---------- A frozen consumer ----------

  /** The consumer finds the cursor at or past the number it waits for, and another number in the slot: it looks again
      at once, without an await. On an event loop no other task runs from then on. */
  predicate Freezes(s: State)
    requires |s.slots| > 0 && s.consumed >= -1
  {
    var next := s.consumed + 1;
    !s.handling && next <= s.cursor && s.slots[Index(next, |s.slots|)].sequence != next
  }

  /** A look that freezes finds the awaited message overwritten, or not yet written though the cursor has passed it; and
      every further look finds the same. The consumer neither hands anything out nor yields exactly then. */
  lemma FreezesIff(s: State, turns: nat)
    requires Inv(s) && !s.handling
    ensures Freezes(s) <==>
            |s.log| <= s.cursor && (Lost(s) || s.producers[|s.log|].Waiting?)
    ensures Freezes(s) <==> |s.log| <= s.cursor && !Ready(s)
    ensures Freezes(s) ==> Next(s, Poll) == s && Drain(s, turns) == s
  {
    hide Index;
    if Freezes(s) { DrainIdle(s, turns); }
  }

  // ---------- When nothing is lost ----------

  /** No write of the run laps the consumer; producers may claim and wait as far ahead as they like. */
  ghost predicate NeverLaps(s: State, steps: seq<Step>)
    requires Inv(s) && IsRun(s, steps)
    decreases |steps|
  {
    steps != [] ==> !Laps(s, steps[0]) && (StepKeeps(s, steps[0]); NeverLaps(Next(s, steps[0]), steps[1..]))
  }

  /** Every message written and not yet delivered is still in its slot, less than a ring ahead of the consumer. */
  ghost predicate Intact(s: State) {
    && |s.slots| > 0
    && forall n :: |s.log| <= n < |s.producers| && !s.producers[n].Waiting? ==>
         n < |s.log| + |s.slots| && s.slots[Index(n, |s.slots|)].sequence == n
  }

  lemma IntactStep(s: State, step: Step)
    requires Inv(s) && Enabled(s, step) && Intact(s) && !Laps(s, step)
    ensures Intact(Next(s, step))
  {
    hide Index;
    if Passes(s, step) {
      assert step.seqNum < |s.log| ==> HasWritten(s, step.seqNum, s.log[step.seqNum]);
      forall n | |s.log| <= n < |s.log| + |s.slots| && n != step.seqNum && step.seqNum >= |s.log|
        ensures Index(n, |s.slots|) != Index(step.seqNum, |s.slots|)
      {
        IndexApart(n, step.seqNum, |s.slots|);
      }
    }
  }

  lemma IndexApart(a: nat, b: nat, size: nat)
    requires size > 0 && a != b && a < b + size && b < a + size
    ensures Index(a, size) != Index(b, size)
  {
    if a < b { ResidueApart(a, b, size); } else { ResidueApart(b, a, size); }
  }

  /** While no write laps the consumer, nothing undelivered is overwritten. */
  lemma {:induction false} IntactRun(s: State, steps: seq<Step>)
    requires Inv(s) && IsRun(s, steps) && Intact(s) && NeverLaps(s, steps)
    ensures Intact(Run(s, steps))
    decreases |steps|
  {
    hide Laps, Intact;
    if steps != [] {
      StepKeeps(s, steps[0]);
      IntactStep(s, steps[0]);
      IntactRun(Next(s, steps[0]), steps[1..]);
    }
  }

  /** A run in which some write laps the consumer never delivers everything it claimed. */
  lemma {:induction false} LapsLose(s: State, steps: seq<Step>)
    requires Inv(s) && IsRun(s, steps) && !NeverLaps(s, steps)
    ensures exists n: nat :: n < |Run(s, steps).producers| && Doomed(Run(s, steps), n)
    decreases |steps|
  {
    hide Laps, Doomed, Gone, Clash;
    StepKeeps(s, steps[0]);
    var s' := Next(s, steps[0]);
    assert Run(s, steps) == Run(s', steps[1..]);
    if Laps(s, steps[0]) {
      LapsAWrite(s, steps[0]);
      LappingDooms(s, steps[0]);
      DoomedRun(s', steps[1..], steps[0].seqNum);
      ProducersGrow(s', steps[1..]);
    } else {
      LapsLose(s', steps[1..]);
    }
  }

  lemma LapsAWrite(s: State, step: Step)
    requires Inv(s) && Enabled(s, step) && Laps(s, step)
    ensures step.TryWrite? && step.seqNum < |Next(s, step).producers|
  {
  }

  lemma {:induction false} ProducersGrow(s: State, steps: seq<Step>)
    requires Inv(s) && IsRun(s, steps)
    ensures |s.producers| <= |Run(s, steps).producers|
    decreases |steps|
  {
    if steps != [] {
      StepKeeps(s, steps[0]);
      ProducersGrow(Next(s, steps[0]), steps[1..]);
    }
  }

  /** The consumer running alone. */
  ghost function Drain(s: State, turns: nat): State
    requires Inv(s)
    decreases turns
  {
    if turns == 0 then s
    else
      var step := if s.handling then Ack else Poll;
      StepKeeps(s, step);
      Drain(Next(s, step), turns - 1)
  }

  /** The consumer alone delivers everything up to the cursor, and nothing past it, when nothing has been
      overwritten. */
  lemma {:induction false} DrainDelivers(s: State, turns: nat)
    requires Inv(s) && Intact(s) && (forall n :: 0 <= n <= s.cursor ==> !s.producers[n].Waiting?)
    requires turns >= 2 * (s.cursor + 1 - |s.log|) + (if s.handling then 1 else 0)
    ensures |Drain(s, turns).log| == (if |s.log| > s.cursor + 1 then |s.log| else s.cursor + 1)
    ensures Inv(Drain(s, turns)) && Drain(s, turns).producers == s.producers
    decreases turns
  {
    hide Index;
    if turns > 0 {
      var step := if s.handling then Ack else Poll;
      StepKeeps(s, step);
      var s' := Next(s, step);
      assert Intact(s');
      if s.handling || Ready(s) {
        DrainDelivers(s', turns - 1);
      } else {
        assert |s.log| > s.cursor;
        DrainIdle(s, turns);
      }
    }
  }

  lemma {:induction false} DrainIdle(s: State, turns: nat)
    requires Inv(s) && !s.handling && !Ready(s)
    ensures Drain(s, turns) == s
  {
    if turns > 0 {
      DrainIdle(s, turns - 1);
    }
  }

  /** Enough turns of the consumer alone bring it to rest. */
  lemma {:induction false} DrainRests(s: State, turns: nat)
    requires Inv(s) && turns >= 2 * (s.cursor + 1 - |s.log|) + (if s.handling then 1 else 0)
        && (s.handling ==> turns > 0)
    ensures var d := Drain(s, turns);
            Inv(d) && !d.handling && !Ready(d) && d.producers == s.producers && d.cursor == s.cursor
    decreases turns
  {
    hide Index;
    if turns > 0 {
      var step := if s.handling then Ack else Poll;
      StepKeeps(s, step);
      if s.handling || Ready(s) {
        DrainRests(Next(s, step), turns - 1);
      } else {
        DrainIdle(s, turns);
      }
    }
  }

  lemma {:induction false} DoomedDrain(s: State, turns: nat, n: nat)
    requires Inv(s) && Doomed(s, n)
    ensures |Drain(s, turns).log| <= n
    decreases turns
  {
    hide Gone, Clash;
    if turns == 0 {
      DoomedBound(s, n);
    } else {
      var step := if s.handling then Ack else Poll;
      StepKeeps(s, step);
      DoomedStep(s, step, n);
      hide Doomed;
      DoomedDrain(Next(s, step), turns - 1, n);
    }
  }

  predicate AllPublished(s: State) {
    forall n :: 0 <= n < |s.producers| ==> s.producers[n].Published?
  }

  /** Once all producers are done, the consumer alone delivers every message claimed if and only if no write lapped it
      and the cursor ended on the last claim (or everything was delivered before). What it delivers are the claimed
      messages in order; where it stops short, the message it waits for is lost or lies past the cursor. */
  lemma NothingLost(size: nat, steps: seq<Step>, turns: nat)
    requires size > 0 && Inv(Init(size)) && IsRun(Init(size), steps)
    requires var s := Run(Init(size), steps);
             AllPublished(s) && turns >= 2 * (|s.producers| - |s.log|) + 1
    ensures var s := Run(Init(size), steps);
            && Inv(s)
            && var d := Drain(s, turns);
               && (|d.log| == |Claimed(steps)|
                   <==> NeverLaps(Init(size), steps) && (s.cursor == s.claimSeq || |s.log| == |s.producers|))
               && |d.log| <= |Claimed(steps)|
               && (forall i :: 0 <= i < |d.log| ==> d.log[i].msg == Claimed(steps)[i])
               && Inv(d) && (|d.log| < |Claimed(steps)| ==> (Lost(d) && Freezes(d)) || |d.log| > s.cursor)
  {
    hide Index, NeverLaps, Drain, Run, IsRun, HasWritten, Claimed;
    var s := Run(Init(size), steps);
    RunKeeps(Init(size), steps);
    ClaimedRun(size, steps);
    LogBounded(s);
    DrainRests(s, turns);
    var d := Drain(s, turns);
    LogBounded(d);
    if NeverLaps(Init(size), steps) {
      IntactRun(Init(size), steps);
      DrainDelivers(s, turns);
    } else {
      LapsLose(Init(size), steps);
      var n: nat :| n < |s.producers| && Doomed(s, n);
      DoomedDrain(s, turns, n);
    }
  }

  lemma LogBounded(s: State)
    requires Inv(s)
    ensures |s.log| <= |s.producers|
    ensures forall i :: 0 <= i < |s.log| ==> !s.producers[i].Waiting? && s.log[i] == s.producers[i].content
  {
    hide Index;
    forall i | 0 <= i < |s.log| ensures i < |s.producers| && !s.producers[i].Waiting?
        && s.log[i] == s.producers[i].content {
      assert HasWritten(s, i, s.log[i]);
    }
    if s.log != [] {
      assert HasWritten(s, |s.log| - 1, s.log[|s.log| - 1]);
    }
  }

  /** The cursor is set, not advanced: when the later of two claims publishes first, both producers finish
      without a lap and yet the cursor stands at 0, so message 1 is not delivered. */
  lemma CursorCanRegress(a: Message, b: Message, steps: seq<Step>)
    requires steps == [Claim(a), Claim(b), TryWrite(0, 0), TryWrite(1, 0), Publish(1), Publish(0)]
    ensures Inv(Init(2)) && IsRun(Init(2), steps)
    ensures var s := Run(Init(2), steps);
            NeverLaps(Init(2), steps) && AllPublished(s) && s.claimSeq == 1 && s.cursor == 0
  {
    hide Index, HasWritten;
    InitInv(2);
    var s0 := Init(2);
    var s1 := Next(s0, steps[0]);
    StepKeeps(s0, steps[0]);
    var s2 := Next(s1, steps[1]);
    StepKeeps(s1, steps[1]);
    var s3 := Next(s2, steps[2]);
    StepKeeps(s2, steps[2]);
    var s4 := Next(s3, steps[3]);
    StepKeeps(s3, steps[3]);
    var s5 := Next(s4, steps[4]);
    StepKeeps(s4, steps[4]);
    var s6 := Next(s5, steps[5]);
    StepKeeps(s5, steps[5]);
    RunCons(s5, steps[5..], s6);
    RunCons(s4, steps[4..], s6);
    RunCons(s3, steps[3..], s6);
    RunCons(s2, steps[2..], s6);
    RunCons(s1, steps[1..], s6);
    RunCons(s0, steps, s6);
  }

  /** Two publishes in a row on a ring of one lap the consumer, with the cursor where it should be: message 0 is
      lost. */
  lemma LapHappens(a: Message, b: Message, steps: seq<Step>)
    requires steps == [Claim(a), TryWrite(0, 0), Publish(0), Claim(b), TryWrite(1, 0), Publish(1)]
    ensures Inv(Init(1)) && IsRun(Init(1), steps)
    ensures var s := Run(Init(1), steps);
            !NeverLaps(Init(1), steps) && AllPublished(s) && s.cursor == s.claimSeq == 1 && Lost(s)
  {
    hide Index, HasWritten;
    InitInv(1);
    var s0 := Init(1);
    var s1 := Next(s0, steps[0]);
    StepKeeps(s0, steps[0]);
    var s2 := Next(s1, steps[1]);
    StepKeeps(s1, steps[1]);
    var s3 := Next(s2, steps[2]);
    StepKeeps(s2, steps[2]);
    var s4 := Next(s3, steps[3]);
    StepKeeps(s3, steps[3]);
    var s5 := Next(s4, steps[4]);
    StepKeeps(s4, steps[4]);
    var s6 := Next(s5, steps[5]);
    StepKeeps(s5, steps[5]);
    assert Laps(s4, steps[4]);
    RunCons(s5, steps[5..], s6);
    RunCons(s4, steps[4..], s6);
    RunCons(s3, steps[3..], s6);
    RunCons(s2, steps[2..], s6);
    RunCons(s1, steps[1..], s6);
    RunCons(s0, steps, s6);
    OneSlot(0);
    OneSlot(1);
  }

  lemma OneSlot(n: nat)
    ensures Index(n, 1) == 0
  {
  }

  lemma RunCons(s: State, steps: seq<Step>, end: State)
    requires Inv(s) && steps != [] && Enabled(s, steps[0])
    requires var s' := Next(s, steps[0]);
             Inv(s') && IsRun(s', steps[1..]) && Run(s', steps[1..]) == end
    ensures IsRun(s, steps) && Run(s, steps) == end
    ensures NeverLaps(s, steps) <==> !Laps(s, steps[0]) && NeverLaps(Next(s, steps[0]), steps[1..])
  {
  }
}

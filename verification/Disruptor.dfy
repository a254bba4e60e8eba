/** The ring buffer, its two counters and the consumer position, one method for each atomic step. */
module Disruptor {
  import opened BitMask
  import opened DisruptorModel

  class Bus {
    const size: nat
    const mask: nat
    const slots: array<Slot>
    var cursor: int
    var claimSeq: int
    var consumed: int
    var handling: bool

    ghost var producers: seq<Producer>
    ghost var log: seq<Content>

    ghost function Abs(): State
      reads this, slots
    {
      State(slots[..], claimSeq, cursor, producers, consumed, handling, log)
    }

    ghost predicate Valid()
      reads this, slots
    {
      slots.Length == size && size > 0 && mask == size - 1 && And(size, mask) == 0 && Inv(Abs())
    }

    /** The size must pass the power-of-two test. */
    constructor (size: nat)
      requires size > 0 && SizeTest(size)
      ensures Valid() && Abs() == Init(size) && fresh(slots)
    {
      this.size, this.mask := size, size - 1;
      slots := new Slot[size](_ => EMPTY_SLOT);
      cursor, claimSeq, consumed, handling := -1, -1, -1, false;
      producers, log := [], [];
      new;
      InitInv(size);
      assert slots[..] == seq(size, _ => EMPTY_SLOT);
    }

    function SlotIndex(n: nat): (i: nat)
      requires size > 0 && mask == size - 1 && And(size, mask) == 0
      ensures i == Index(n, size)
    {
      MaskOfSize(n, size);
      And(n, mask)
    }

    /** `next_sequence` up to its first look at the cursor. */
    method NextSequence(msg: Message) returns (n: nat)
      requires Valid()
      modifies `claimSeq, `producers
      ensures Valid() && Abs() == Next(old(Abs()), Claim(msg)) && n == claimSeq
    {
      StepKeeps(Abs(), Claim(msg));
      claimSeq := claimSeq + 1;
      producers := producers + [Waiting(msg)];
      n := claimSeq;
    }

    /** One turn of the spin loop; on success the slot is written with no await in between. */
    method CheckAndWrite(n: nat, msg: Message, tsNs: int) returns (done: bool)
      requires Valid() && Enabled(Abs(), TryWrite(n, tsNs)) && producers[n] == Waiting(msg)
      modifies slots, `producers
      ensures Valid() && Abs() == Next(old(Abs()), TryWrite(n, tsNs))
      ensures done <==> n - cursor <= size
    {
      StepKeeps(Abs(), TryWrite(n, tsNs));
      if n - cursor > size {
        return false;
      }
      slots[SlotIndex(n)] := Slot(n, Content(msg, tsNs));
      producers := producers[n := Written(Content(msg, tsNs))];
      assert slots[..] == old(slots[..])[Index(n, size) := Slot(n, Content(msg, tsNs))];
      return true;
    }

    method SetCursor(n: nat)
      requires Valid() && Enabled(Abs(), Publish(n))
      modifies `cursor, `producers
      ensures Valid() && Abs() == Next(old(Abs()), Publish(n))
    {
      StepKeeps(Abs(), Publish(n));
      cursor := n;
      producers := producers[n := Published(producers[n].content)];
    }

    /** One look of the consumer; the handler is entered with the slot's content. A frozen look is followed by the next
        one at once, and by nothing else. */
    method PollOnce() returns (given: seq<Content>, frozen: bool)
      requires Valid() && !handling
      modifies `handling, `log
      ensures Valid() && Abs() == Next(old(Abs()), Poll)
      ensures log == old(log) + given && |given| <= 1
      ensures frozen <==> old(Freezes(Abs()))
    {
      StepKeeps(Abs(), Poll);
      given, frozen := [], false;
      var nextSeq := consumed + 1;
      if nextSeq <= cursor {
        var slot := slots[SlotIndex(nextSeq)];
        if slot.sequence == nextSeq {
          handling := true;
          given := [slot.content];
        } else {
          frozen := true;
        }
      }
      log := log + given;
    }

    method HandlerDone()
      requires Valid() && handling
      modifies `handling, `consumed
      ensures Valid() && Abs() == Next(old(Abs()), Ack)
    {
      StepKeeps(Abs(), Ack);
      handling := false;
      consumed := consumed + 1;
    }
  }
}

/** Stop management of one open position: the evaluation of a tick and the regime flip, each in the parts between its
    awaits, and the position updates the agent publishes and then hears itself. Floats are reals; times are whole
    seconds. */
module Monitoring {
  import opened Text
  import opened Reals

  datatype Direction = Long | Short

  datatype Position = Position(direction: Direction, entry: real, stop: real, trailing: Option<real>, timeStop: int)

  datatype ExitMode = TimeStop | PriceStop | AtrExpansion | SpreadDoubling

  /** Where an evaluation waits, and the position object it holds: for the next round, for its first turn after the
      round has captured the object, for the tick, for the bars of its expansion check, or for the store before it
      publishes its new trailing stop. */
  datatype Phase =
    | Idle
    | Launched(o: nat)
    | AwaitTick(o: nat)
    | AwaitBars(o: nat, price: real, spread: real)
    | AwaitSend(o: nat)

  /** Where a flip waits: it holds an object it has yet to tighten, or one it has tightened and has yet to publish. */
  datatype FlipPhase = NoFlip | Captured(o: nat, now: int) | Sending(o: nat)

  /** The position objects so far, which of them the agent monitors, and its own updates published and not yet heard. */
  datatype Slot = Slot(objs: seq<Position>, cur: nat, queue: seq<Position>, entrySpread: real, monitored: bool,
                       tightened: bool, phase: Phase, flip: FlipPhase, exits: seq<ExitMode>)

  /** Every object referred to exists. */
  predicate Ok(s: Slot) {
    && s.cur < |s.objs|
    && (!s.phase.Idle? ==> s.phase.o < |s.objs|)
    && (!s.flip.NoFlip? ==> s.flip.o < |s.objs|)
  }

  /** The position the agent monitors. */
  function Pos(s: Slot): Position
    requires Ok(s)
  {
    s.objs[s.cur]
  }

  const HOLD_COMPRESS: int := 60

  // ---------- What one step does to a position ----------

  /** The stop that counts: the trailing one once there is one. */
  function Effective(p: Position): real {
    if p.trailing.Some? then p.trailing.value else p.stop
  }

  predicate StopHit(p: Position, price: real) {
    if p.direction == Long then price <= Effective(p) else price >= Effective(p)
  }

  function Risk(p: Position): real {
    Abs(p.entry - p.stop)
  }

  /** A candidate replaces the trailing stop only when it is tighter. */
  function Tighter(p: Position, candidate: real): Position {
    if p.trailing == None || (if p.direction == Long then candidate > p.trailing.value
        else candidate < p.trailing.value)
    then p.(trailing := Some(candidate)) else p
  }

  /** `_update_trailing_stop`: breakeven at one risk of profit, half a risk of profit at one and a half. */
  function Trail(p: Position, price: real): Position {
    var risk := Risk(p);
    if risk <= 0.0 then p
    else
      var profit := if p.direction == Long then price - p.entry else p.entry - price;
      var locked := if p.direction == Long then p.entry + 0.5 * risk else p.entry - 0.5 * risk;
      if profit / risk >= 1.5 then Tighter(p, locked)
      else if profit / risk >= 1.0 then Tighter(p, p.entry)
      else p
  }

  /** One position's part of `_apply_regime_flip_to_open_positions`. */
  function Flip(p: Position, now: int): Position {
    var risk := Risk(p) * 0.5;
    var halved := if p.direction == Long then p.entry - risk else p.entry + risk;
    var stop := if p.direction == Long then (if halved <= p.stop then p.stop else halved)
                else (if halved >= p.stop then p.stop else halved);
    p.(stop := stop, timeStop := if now + HOLD_COMPRESS < p.timeStop then now + HOLD_COMPRESS else p.timeStop)
  }

  // ---------- Steps ----------

  datatype Step =
    | Launch
    | Begin(now: int)
    | Tick(price: real, spread: real)
    | NoTick
    | Bars(expanded: bool)
    | SendTrail
    | FlipCapture(now: int)
    | FlipWrite
    | FlipSend
    | Hear
    | ClosedOutside
    | Refill(p: Position, entrySpread: real)

  /** `_trigger_exit`. */
  function Exit(s: Slot, mode: ExitMode): Slot {
    s.(monitored := false, tightened := false, phase := Idle, exits := s.exits + [mode])
  }

  /** A trailing stop that changes is written to the object the evaluation holds, and published after the store. */
  function WriteTrail(s: Slot, o: nat, p: Position): Slot
    requires o < |s.objs|
  {
    if p == s.objs[o] then s.(phase := Idle) else s.(objs := s.objs[o := p], phase := AwaitSend(o))
  }

  function Next(s: Slot, e: Step): (r: Slot)
    requires Ok(s)
    ensures Ok(r)
  {
    match e
    case Launch => if s.monitored && s.phase == Idle then s.(phase := Launched(s.cur)) else s
    case Begin(now) =>
      if !s.phase.Launched? then s
      else if now >= s.objs[s.phase.o].timeStop then Exit(s, TimeStop)
      else s.(phase := AwaitTick(s.phase.o))
    case Tick(price, spread) =>
      if !s.phase.AwaitTick? then s
      else if StopHit(s.objs[s.phase.o], price) then Exit(s, PriceStop)
      else s.(phase := AwaitBars(s.phase.o, price, spread))
    case NoTick => if s.phase.AwaitTick? then s.(phase := Idle) else s
    case Bars(expanded) =>
      if !s.phase.AwaitBars? then s
      else if expanded then Exit(s, AtrExpansion)
      else if s.entrySpread > 0.0 && s.phase.spread > 2.0 * s.entrySpread then Exit(s, SpreadDoubling)
      else WriteTrail(s, s.phase.o, Trail(s.objs[s.phase.o], s.phase.price))
    case SendTrail => if s.phase.AwaitSend? then s.(queue := s.queue + [s.objs[s.phase.o]], phase := Idle) else s
    case FlipCapture(now) => if s.monitored && s.flip == NoFlip then s.(flip := Captured(s.cur, now)) else s
    case FlipWrite =>
      if !s.flip.Captured? then s
      else if s.tightened then s.(flip := NoFlip)
      else s.(objs := s.objs[s.flip.o := Flip(s.objs[s.flip.o], s.flip.now)], tightened := true,
          flip := Sending(s.flip.o))
    case FlipSend => if s.flip.Sending? then s.(queue := s.queue + [s.objs[s.flip.o]], flip := NoFlip) else s
    case Hear =>
      if s.queue == [] then s
      else if !s.monitored then s.(queue := s.queue[1..])
      else s.(objs := s.objs + [s.queue[0]], cur := |s.objs|, queue := s.queue[1..])
    case ClosedOutside => s.(monitored := false, tightened := false)
    case Refill(p, entrySpread) =>
      if s.monitored then s
      else s.(objs := s.objs + [p], cur := |s.objs|, monitored := true, entrySpread := entrySpread)
  }

  function Run(s: Slot, steps: seq<Step>): (r: Slot)
    requires Ok(s)
    ensures Ok(r)
  {
    if steps == [] then s else Next(Run(s, steps[..|steps| - 1]), steps[|steps| - 1])
  }

  lemma {:induction false} RunAppend(s: Slot, a: seq<Step>, b: seq<Step>)
    requires Ok(s)
    ensures Run(s, a + b) == Run(Run(s, a), b)
    decreases |b|
  {
    hide Next;
    if b == [] {
      assert a + b == a;
    } else {
      assert (a + b)[..|a + b| - 1] == a + b[..|b| - 1];
      RunAppend(s, a, b[..|b| - 1]);
    }
  }

  lemma RunThree(s: Slot, a: Step, b: Step, c: Step)
    requires Ok(s)
    ensures Run(s, [a]) == Next(s, a) && Run(s, [a, b]) == Next(Next(s, a), b)
    ensures Run(s, [a, b, c]) == Next(Next(Next(s, a), b), c)
  {
    hide Next, Run;
    RunSnoc(s, [], a);
    RunSnoc(s, [a], b);
    RunSnoc(s, [a, b], c);
    assert [] + [a] == [a] && [a] + [b] == [a, b] && [a, b] + [c] == [a, b, c];
    RunNone(s);
  }

  lemma RunNone(s: Slot)
    requires Ok(s)
    ensures Run(s, []) == s
  {
  }

  lemma RunSnoc(s: Slot, steps: seq<Step>, e: Step)
    requires Ok(s)
    ensures Run(s, steps + [e]) == Next(Run(s, steps), e)
  {
    hide Next;
    assert (steps + [e])[..|steps|] == steps;
  }

  lemma RunFour(s: Slot, a: Step, b: Step, c: Step, d: Step)
    requires Ok(s)
    ensures Run(s, [a, b, c, d]) == Next(Next(Next(Next(s, a), b), c), d)
  {
    hide *;
    RunThree(s, a, b, c);
    RunSnoc(s, [a, b, c], d);
    assert [a, b, c] + [d] == [a, b, c, d];
  }

  function Opened(p: Position, entrySpread: real): (s: Slot)
    ensures Ok(s) && Pos(s) == p
  {
    Slot([p], 0, [], entrySpread, true, false, Idle, NoFlip, [])
  }

  /** No fill of the symbol monitors a stored position again. */
  predicate OneLife(steps: seq<Step>) {
    forall e <- steps :: !e.Refill?
  }

  /** In one life of the position, no position update is heard. */
  predicate Deaf(steps: seq<Step>) {
    OneLife(steps) && Hear !in steps
  }

  // ---------- Stops only tighten ----------

  /** A price read in the direction of the trade: more is better. */
  function Toward(d: Direction, x: real): real {
    if d == Long then x else -x
  }

  /** The stop stands on the losing side of the entry. */
  predicate Losing(p: Position) {
    Toward(p.direction, p.stop) <= Toward(p.direction, p.entry)
  }

  /** The stop is on the losing side, and a trailing stop at breakeven or better. */
  predicate Sound(p: Position) {
    Losing(p) && (p.trailing.Some? ==> Toward(p.direction, p.trailing.value) >= Toward(p.direction, p.entry))
  }

  /** Position q keeps what p protects: same trade, a stop at least as tight, a time stop no later. */
  predicate Protects(q: Position, p: Position) {
    && q.direction == p.direction && q.entry == p.entry
    && Toward(p.direction, Effective(q)) >= Toward(p.direction, Effective(p))
    && q.timeStop <= p.timeStop
  }

  lemma TrailProtects(p: Position, price: real)
    requires Sound(p)
    ensures Sound(Trail(p, price)) && Protects(Trail(p, price), p) && Trail(p, price).stop == p.stop
  {
  }

  lemma FlipProtects(p: Position, now: int)
    requires Sound(p)
    ensures Sound(Flip(p, now)) && Protects(Flip(p, now), p) && Risk(Flip(p, now)) == Risk(p) * 0.5
  {
  }

  /** Only one object was ever monitored, so every step that holds an object holds that one. */
  predicate Alone(s: Slot) {
    Ok(s) && |s.objs| == 1
  }

  lemma NextProtects(s: Slot, e: Step)
    requires Alone(s) && Sound(Pos(s)) && e != Hear && !e.Refill?
    ensures Alone(Next(s, e)) && Sound(Pos(Next(s, e))) && Protects(Pos(Next(s, e)), Pos(s))
  {
    hide Trail, Flip, Sound;
    if s.phase.AwaitBars? { TrailProtects(Pos(s), s.phase.price); }
    if s.flip.Captured? { FlipProtects(Pos(s), s.flip.now); }
  }

  /** From any moment of any run in which no update is heard to any later one: the effective stop moves only in the
      trade's favour and the time stop never moves later. */
  lemma {:induction false} StopsOnlyTighten(s: Slot, steps: seq<Step>)
    requires Alone(s) && Sound(Pos(s)) && Deaf(steps)
    ensures Alone(Run(s, steps)) && Sound(Pos(Run(s, steps))) && Protects(Pos(Run(s, steps)), Pos(s))
  {
    hide Next, Sound;
    if steps != [] {
      var k := |steps| - 1;
      assert forall e <- steps[..k] :: e in steps;
      StopsOnlyTighten(s, steps[..k]);
      assert steps[k] in steps;
      NextProtects(Run(s, steps[..k]), steps[k]);
    }
  }

  lemma QuarterPastOne(risk: real, profit: real)
    requires risk > 0.0 && profit == 1.25 * risk
    ensures 1.0 <= profit / risk < 1.5
  {
  }

  /** With the stop on the winning side, a profit of one and a quarter risks moves it back to breakeven. */
  lemma WinningSideLoosens(p: Position, entrySpread: real)
    requires !Losing(p) && p.trailing == None
    ensures var price := if p.direction == Long then p.entry + 1.25 * Risk(p) else p.entry - 1.25 * Risk(p);
            !Protects(Pos(Run(Opened(p, entrySpread),
                [Launch, Begin(p.timeStop - 1), Tick(price, 0.0), Bars(false)])), p)
  {
    var price := if p.direction == Long then p.entry + 1.25 * Risk(p) else p.entry - 1.25 * Risk(p);
    var s := Opened(p, entrySpread);
    var s1 := Next(Next(s, Launch), Begin(p.timeStop - 1));
    assert !StopHit(p, price);
    var s2 := Next(s1, Tick(price, 0.0));
    QuarterPastOne(Risk(p), if p.direction == Long then price - p.entry else p.entry - price);
    assert Trail(p, price) == p.(trailing := Some(p.entry));
    assert Pos(Next(s2, Bars(false))) == Trail(p, price);
    RunFour(s, Launch, Begin(p.timeStop - 1), Tick(price, 0.0), Bars(false));
  }

  /** A newly opened position keeps tightening through every run without heard updates if and only if its stop is on the
      losing side. */
  lemma TightensIff(p: Position, entrySpread: real)
    requires p.trailing == None
    ensures Losing(p) <==> forall steps :: Deaf(steps) ==> Protects(Pos(Run(Opened(p, entrySpread), steps)), p)
  {
    if Losing(p) {
      forall steps | Deaf(steps) ensures Protects(Pos(Run(Opened(p, entrySpread), steps)), p) {
        StopsOnlyTighten(Opened(p, entrySpread), steps);
      }
    } else {
      var price := if p.direction == Long then p.entry + 1.25 * Risk(p) else p.entry - 1.25 * Risk(p);
      var steps := [Launch, Begin(p.timeStop - 1), Tick(price, 0.0), Bars(false)];
      WinningSideLoosens(p, entrySpread);
      assert Deaf(steps);
    }
  }

  // ---------- A flip tightens once, and bounds the hold ----------

  /** Over any run without heard updates, whatever the number of flips: while the position is monitored its stop's
      risk is the original one before the first flip and exactly half of it after. */
  lemma {:induction false} FlipsDoNotCompound(p: Position, entrySpread: real, steps: seq<Step>)
    requires Losing(p) && p.trailing == None && Deaf(steps)
    ensures var s := Run(Opened(p, entrySpread), steps);
            && Alone(s) && Sound(Pos(s))
            && (s.monitored ==> Risk(Pos(s)) == if s.tightened then Risk(p) * 0.5 else Risk(p))
  {
    assert Sound(p);
    hide Sound, Risk, Next;
    if steps != [] {
      var k := |steps| - 1;
      assert forall e <- steps[..k] :: e in steps;
      FlipsDoNotCompound(p, entrySpread, steps[..k]);
      assert steps[k] in steps;
      NextRisk(Run(Opened(p, entrySpread), steps[..k]), steps[k]);
    }
  }

  lemma NextRisk(s: Slot, e: Step)
    requires Alone(s) && Sound(Pos(s)) && e != Hear && !e.Refill?
    ensures Alone(Next(s, e)) && Sound(Pos(Next(s, e))) && (Next(s, e).monitored ==> s.monitored)
    ensures Risk(Pos(Next(s, e))) == if e == FlipWrite && s.flip.Captured? && !s.tightened then Risk(Pos(s)) * 0.5
        else Risk(Pos(s))
    ensures Next(s, e).monitored ==> (Next(s, e).tightened <==> s.tightened || (e == FlipWrite && s.flip.Captured?))
  {
    hide Trail, Flip, Sound, Protects, Risk;
    if s.phase.AwaitBars? { SameRisk(Pos(s), s.phase.price); }
    if s.flip.Captured? { FlipProtects(Pos(s), s.flip.now); }
  }

  lemma SameRisk(p: Position, price: real)
    requires Sound(p)
    ensures Sound(Trail(p, price)) && Risk(Trail(p, price)) == Risk(p)
  {
    TrailProtects(p, price);
    assert Trail(p, price).entry == p.entry;
  }

  /** A round begun a minute or more after a flip that found the position untightened ends the position, however many
      ticks and flips came in between. */
  lemma FlipBoundsTheHold(s: Slot, steps: seq<Step>, now: int)
    requires Alone(s) && Sound(Pos(s)) && !s.tightened && s.flip.Captured? && Deaf(steps)
        && now >= s.flip.now + 60
    requires Run(Next(s, FlipWrite), steps).phase == Idle
    ensures !Next(Next(Run(Next(s, FlipWrite), steps), Launch), Begin(now)).monitored
  {
    var flipped := Next(s, FlipWrite);
    FlipProtects(Pos(s), s.flip.now);
    StopsOnlyTighten(flipped, steps);
  }

  /** The profit at a price, in multiples of the risk. */
  function ProfitInRisks(p: Position, price: real): real
    requires Risk(p) > 0.0
  {
    Toward(p.direction, price - p.entry) / Risk(p)
  }

  /** From the round that sees one risk of profit on, the trade is at breakeven or better; from one and a half, at least
      half a risk of profit is locked in. */
  lemma ProfitIsLocked(s: Slot, steps: seq<Step>)
    requires Alone(s) && Sound(Pos(s)) && Risk(Pos(s)) > 0.0 && s.phase.AwaitBars? && Deaf(steps)
    requires s.monitored && Next(s, Bars(false)).monitored
    ensures var p, profit := Pos(Run(Next(s, Bars(false)), steps)), ProfitInRisks(Pos(s), s.phase.price);
            && (profit >= 1.0 ==> Toward(p.direction, Effective(p)) >= Toward(p.direction, p.entry))
            && (profit >= 1.5 ==>
                  Toward(p.direction, Effective(p)) >= Toward(p.direction, p.entry) + 0.5 * Risk(Pos(s)))
  {
    BarsTrail(s);
    TrailProtects(Pos(s), s.phase.price);
    TrailLocks(Pos(s), s.phase.price);
    StopsOnlyTighten(Next(s, Bars(false)), steps);
    hide Trail, Risk, ProfitInRisks, Next, Run, Sound, Deaf;
  }

  lemma BarsTrail(s: Slot)
    requires Alone(s) && s.phase.AwaitBars? && s.monitored && Next(s, Bars(false)).monitored
    ensures Alone(Next(s, Bars(false))) && Pos(Next(s, Bars(false))) == Trail(Pos(s), s.phase.price)
  {
    hide Trail;
  }

  lemma TrailLocks(p: Position, price: real)
    requires Sound(p) && Risk(p) > 0.0
    ensures var q, profit := Trail(p, price), ProfitInRisks(p, price);
            && (profit >= 1.0 ==> Toward(p.direction, Effective(q)) >= Toward(p.direction, p.entry))
            && (profit >= 1.5 ==> Toward(p.direction, Effective(q)) >= Toward(p.direction, p.entry) + 0.5 * Risk(p))
  {
  }

  /** A price of x would stop the position out: said on the fields. */
  predicate Stops(p: Position, x: real) {
    && (p.direction == Long && p.trailing.Some? ==> x <= p.trailing.value)
    && (p.direction == Long && p.trailing.None? ==> x <= p.stop)
    && (p.direction == Short && p.trailing.Some? ==> x >= p.trailing.value)
    && (p.direction == Short && p.trailing.None? ==> x >= p.stop)
  }

  /** How far a price stands in the money, and what the trade has at risk. */
  function Gained(p: Position, price: real): real {
    if p.direction == Long then price - p.entry else p.entry - price
  }

  function AtRisk(p: Position): real {
    if p.direction == Long then p.entry - p.stop else p.stop - p.entry
  }

  /** After a round at some price, another price stops the position exactly when it did before, or gives up the entry
      after a profit of one risk, or gives up half a risk after a profit of one and a half. */
  lemma TrailStopsIff(p: Position, price: real, x: real)
    requires Sound(p) && AtRisk(p) > 0.0
    ensures Stops(Trail(p, price), x) <==>
              || Stops(p, x)
              || (Gained(p, price) >= AtRisk(p) && Gained(p, x) <= 0.0)
              || (Gained(p, price) >= 1.5 * AtRisk(p) && Gained(p, x) <= 0.5 * AtRisk(p))
  {
    AtMostQuotient(1.5, Gained(p, price), Risk(p));
    AtMostQuotient(1.0, Gained(p, price), Risk(p));
  }

  /** After a regime flip: stopped out as before, or, without a trailing stop, from half the risk on; and a time stop a
      minute away at the latest. */
  lemma FlipStopsIff(p: Position, now: int, x: real)
    requires Sound(p)
    ensures Stops(Flip(p, now), x) <==> Stops(p, x) || (p.trailing.None? && Gained(p, x) <= -(0.5 * AtRisk(p)))
    ensures Flip(p, now).timeStop == if p.timeStop <= now + 60 then p.timeStop else now + 60
  {
  }

  /** A tick ends the position held by the round exactly when it is at or beyond its stop, the trailing one once there
      is one. */
  lemma TickExitsIff(s: Slot, price: real, spread: real)
    requires Ok(s) && s.phase.AwaitTick?
    ensures var r := Next(s, Tick(price, spread));
            if Stops(s.objs[s.phase.o], price) then !r.monitored && r.phase == Idle && r.exits == s.exits + [PriceStop]
            else r.monitored == s.monitored && r.phase.AwaitBars? && r.exits == s.exits
  {
  }

  /** The best price gained half as much again as was at risk and this one keeps half a risk or less, or it gained the
      risk and this one is back at the entry. */
  predicate GivesUp(p: Position, best: real, price: real) {
    || (Gained(p, best) >= 1.5 * AtRisk(p) && Gained(p, price) <= 0.5 * AtRisk(p))
    || (Gained(p, best) >= AtRisk(p) && Gained(p, price) <= 0.0)
  }

  /** Once a round has seen one and a half risks of profit, every later tick that leaves half a risk or less ends the
      position, whatever came between, flips included; once it has seen one, every tick back at the entry does. */
  lemma LockedProfitExits(s: Slot, steps: seq<Step>, price: real, spread: real)
    requires Alone(s) && Sound(Pos(s)) && AtRisk(Pos(s)) > 0.0 && s.phase.AwaitBars? && Deaf(steps)
    requires s.monitored && Next(s, Bars(false)).monitored && GivesUp(Pos(s), s.phase.price, price)
    ensures var r := Run(Next(s, Bars(false)), steps);
            && (r.phase.AwaitTick? ==> !Next(r, Tick(price, spread)).monitored)
            && (r.phase.AwaitTick? ==> Next(r, Tick(price, spread)).exits == r.exits + [PriceStop])
            && forall now, expanded ::
                 r.phase == Idle ==> !Evaluated(r, now, Some(price), spread, expanded).monitored
  {
    hide Trail, Run, Next, Sound, Deaf, GivesUp, Evaluated, Stops;
    var r := Run(Next(s, Bars(false)), steps);
    LockedStops(s, steps, price);
    if r.phase.AwaitTick? { TickExitsIff(r, price, spread); }
    forall now, expanded | r.phase == Idle ensures !Evaluated(r, now, Some(price), spread, expanded).monitored {
      RoundExitsIff(r, now, Some(price), spread, expanded);
    }
  }

  lemma LockedStops(s: Slot, steps: seq<Step>, price: real)
    requires Alone(s) && Sound(Pos(s)) && AtRisk(Pos(s)) > 0.0 && s.phase.AwaitBars? && Deaf(steps)
    requires s.monitored && Next(s, Bars(false)).monitored && GivesUp(Pos(s), s.phase.price, price)
    ensures Alone(Run(Next(s, Bars(false)), steps)) && Stops(Pos(Run(Next(s, Bars(false)), steps)), price)
  {
    hide Trail, Run, Next, Sound, Deaf, Stops, Gained, AtRisk, Protects;
    var next := Next(s, Bars(false));
    BarsTrail(s);
    TrailProtects(Pos(s), s.phase.price);
    TrailStopsIff(Pos(s), s.phase.price, price);
    StopsOnlyTighten(next, steps);
    ProtectedStops(Pos(Run(next, steps)), Pos(next), price);
  }

  lemma ProtectedStops(q: Position, p: Position, x: real)
    requires Protects(q, p) && Stops(p, x)
    ensures Stops(q, x)
  {
  }

  // ---------- One exit ----------

  function Refills(steps: seq<Step>): nat {
    if steps == [] then 0 else Refills(steps[..|steps| - 1]) + if steps[|steps| - 1].Refill? then 1 else 0
  }

  /** Whether an exit can come before the next refill. */
  predicate Live(s: Slot) {
    s.monitored || s.phase != Idle
  }

  /** Over any run exits number at most one for the first life and one for each refill, and one less while the position
      is still live: an exit needs a life of its own. */
  lemma {:induction false} ExitOnce(s: Slot, steps: seq<Step>)
    requires Ok(s)
    ensures var r := Run(s, steps);
            |r.exits| + (if Live(r) then 1 else 0) <= |s.exits| + (if Live(s) then 1 else 0) + Refills(steps)
  {
    hide Next, Live;
    if steps != [] {
      ExitOnce(s, steps[..|steps| - 1]);
      NextExits(Run(s, steps[..|steps| - 1]), steps[|steps| - 1]);
    }
  }

  lemma NextExits(s: Slot, e: Step)
    requires Ok(s)
    ensures var r := Next(s, e);
            |r.exits| + (if Live(r) then 1 else 0)
            <= |s.exits| + (if Live(s) then 1 else 0) + (if e.Refill? then 1 else 0)
  {
    hide Trail, Flip, StopHit;
  }

  /** An exited position that is still stored can exit again exactly when a fill monitors it again. */
  lemma ExitAgainIff(s: Slot, steps: seq<Step>)
    requires Ok(s) && !Live(s)
    ensures |Run(s, steps).exits| > |s.exits| ==> !OneLife(steps)
    ensures forall p, spread ::
              |Run(s, [Refill(p, spread), Launch, Begin(p.timeStop)]).exits| == |s.exits| + 1
  {
    ExitOnce(s, steps);
    if OneLife(steps) { NoRefills(steps); }
    forall p, spread ensures |Run(s, [Refill(p, spread), Launch, Begin(p.timeStop)]).exits| == |s.exits| + 1 {
      RunThree(s, Refill(p, spread), Launch, Begin(p.timeStop));
    }
  }

  lemma {:induction false} NoRefills(steps: seq<Step>)
    requires OneLife(steps)
    ensures Refills(steps) == 0
  {
    if steps != [] {
      assert steps[|steps| - 1] in steps;
      assert forall e <- steps[..|steps| - 1] :: e in steps;
      NoRefills(steps[..|steps| - 1]);
    }
  }

  /** And it can be flipped again: a position stored after a flip, exited and monitored again, has its half risk
      halved. */
  lemma RefillFlipsAgain(s: Slot, p: Position, entrySpread: real, now: int, later: int)
    requires Ok(s) && !Live(s) && !s.tightened && s.flip == NoFlip && Losing(p)
    ensures var r := Run(s, [Refill(Flip(p, now), entrySpread), FlipCapture(later), FlipWrite]);
            Pos(r) == Flip(Flip(p, now), later) && Risk(Pos(r)) == Risk(p) * 0.25
  {
    RefillFlips(s, Flip(p, now), entrySpread, later);
    hide Run;
    var q := p.(trailing := None);
    FlipProtects(q, now);
    FlipProtects(Flip(q, now), later);
    FlipIgnoresTrailing(p, now);
    FlipIgnoresTrailing(Flip(p, now), later);
  }

  lemma RefillFlips(s: Slot, q: Position, entrySpread: real, later: int)
    requires Ok(s) && !Live(s) && !s.tightened && s.flip == NoFlip
    ensures Pos(Run(s, [Refill(q, entrySpread), FlipCapture(later), FlipWrite])) == Flip(q, later)
  {
    hide Flip;
    RunThree(s, Refill(q, entrySpread), FlipCapture(later), FlipWrite);
  }

  lemma FlipIgnoresTrailing(p: Position, now: int)
    ensures Flip(p.(trailing := None), now) == Flip(p, now).(trailing := None)
  {
  }

  /** A position closed from outside can still be told to exit, before any refill, if and only if an evaluation was
      waiting for its first turn, its tick or its bars. */
  lemma ExitAfterCloseIff(s: Slot)
    requires Ok(s) && s.exits == []
    ensures (exists steps :: OneLife(steps) && Run(Next(s, ClosedOutside), steps).exits != [])
            <==> s.phase.Launched? || s.phase.AwaitTick? || s.phase.AwaitBars?
  {
    var closed := Next(s, ClosedOutside);
    match s.phase
    case Launched(o) =>
      var first := Begin(s.objs[o].timeStop);
      RunThree(closed, first, first, first);
      assert OneLife([first]) && Run(closed, [first]).exits == [TimeStop];
    case AwaitTick(o) =>
      var tick := Tick(Effective(s.objs[o]), 0.0);
      RunThree(closed, tick, tick, tick);
      assert OneLife([tick]) && Run(closed, [tick]).exits == [PriceStop];
    case AwaitBars(_, _, _) =>
      RunThree(closed, Bars(true), NoTick, NoTick);
      assert OneLife([Bars(true)]) && Run(closed, [Bars(true)]).exits == [AtrExpansion];
    case _ =>
      forall steps | OneLife(steps) ensures Run(closed, steps).exits == [] { ClosedQuietStays(closed, steps); }
  }

  lemma {:induction false} ClosedQuietStays(s: Slot, steps: seq<Step>)
    requires Ok(s) && !s.monitored && (s.phase.Idle? || s.phase.AwaitSend?) && s.exits == [] && OneLife(steps)
    ensures var r := Run(s, steps); !r.monitored && (r.phase.Idle? || r.phase.AwaitSend?) && r.exits == []
  {
    hide Flip;
    if steps != [] {
      assert steps[|steps| - 1] in steps;
      assert forall e <- steps[..|steps| - 1] :: e in steps;
      ClosedQuietStays(s, steps[..|steps| - 1]);
    }
  }

  // ---------- The agent hears its own updates ----------

  /** Hearing everything that is queued. */
  function Drain(s: Slot): (r: Slot)
    requires Ok(s)
    ensures Ok(r)
    decreases |s.queue|
  {
    if s.queue == [] then s else Drain(Next(s, Hear))
  }

  /** The last update sent and not yet heard, or the monitored position when all are heard. */
  function Latest(s: Slot): Position
    requires Ok(s)
  {
    if s.queue != [] then s.queue[|s.queue| - 1] else Pos(s)
  }

  lemma {:induction false} DrainedIsLatest(s: Slot)
    requires Ok(s) && s.monitored
    ensures Pos(Drain(s)) == Latest(s) && Drain(s).queue == [] && Drain(s).monitored
    decreases |s.queue|
  {
    if s.queue != [] { DrainedIsLatest(Next(s, Hear)); }
  }

  /** What a step publishes. */
  function Sent(s: Slot, e: Step): Option<Position>
    requires Ok(s)
  {
    if e == SendTrail && s.phase.AwaitSend? then Some(s.objs[s.phase.o])
    else if e == FlipSend && s.flip.Sending? then Some(s.objs[s.flip.o])
    else None
  }

  /** A setback: the object published has a looser stop or a later time stop than the last update still queued, or than
      the monitored position when none is. */
  predicate Setback(s: Slot, e: Step)
    requires Ok(s)
  {
    Sent(s, e).Some? && !Protects(Sent(s, e).value, Latest(s))
  }

  predicate NoSetback(s: Slot, steps: seq<Step>)
    requires Ok(s)
  {
    forall i :: 0 <= i < |steps| ==> !Setback(Run(s, steps[..i]), steps[i])
  }

  /** A sound position of the trade p. */
  predicate Kin(q: Position, p: Position) {
    Sound(q) && q.direction == p.direction && q.entry == p.entry
  }

  predicate AllKin(qs: seq<Position>, p: Position) {
    forall i :: 0 <= i < |qs| ==> Kin(qs[i], p)
  }

  /** Every object and queued update is a sound position of the trade p. */
  predicate AllSound(s: Slot, p: Position) {
    AllKin(s.objs, p) && AllKin(s.queue, p)
  }

  lemma AllKinGrows(qs: seq<Position>, q: Position, p: Position)
    requires AllKin(qs, p) && Kin(q, p)
    ensures AllKin(qs + [q], p)
  {
  }

  lemma KinTrail(q: Position, price: real, p: Position)
    requires Kin(q, p)
    ensures Kin(Trail(q, price), p) && Protects(Trail(q, price), q)
  {
    TrailProtects(q, price);
  }

  lemma KinFlip(q: Position, now: int, p: Position)
    requires Kin(q, p)
    ensures Kin(Flip(q, now), p) && Protects(Flip(q, now), q)
  {
    FlipProtects(q, now);
  }

  /** A written object replaces one that it protects. */
  lemma WriteKeeps(s: Slot, t: Slot, o: nat, q: Position, p: Position)
    requires Ok(s) && Ok(t) && AllSound(s, p) && o < |s.objs| && Kin(q, p) && Protects(q, s.objs[o])
    requires t.objs == s.objs[o := q] && t.cur == s.cur && t.queue == s.queue
    ensures AllSound(t, p) && Protects(Latest(t), Latest(s))
  {
    hide Kin;
    if s.queue != [] { ProtectsItself(Latest(s)); } else if o != s.cur { ProtectsItself(Pos(s)); }
  }

  lemma SendKeeps(s: Slot, t: Slot, q: Position, p: Position)
    requires Ok(s) && Ok(t) && AllSound(s, p) && q in s.objs && t.objs == s.objs && t.queue == s.queue + [q]
    ensures AllSound(t, p) && Latest(t) == q
  {
    hide Kin;
  }

  lemma HearKeeps(s: Slot, p: Position)
    requires Ok(s) && AllSound(s, p) && s.monitored && s.queue != []
    ensures AllSound(Next(s, Hear), p) && Latest(Next(s, Hear)) == Latest(s)
  {
    hide Kin;
    AllKinGrows(s.objs, s.queue[0], p);
  }

  lemma NextLatest(s: Slot, e: Step, p: Position)
    requires Ok(s) && AllSound(s, p) && s.monitored
    ensures AllSound(Next(s, e), p)
    ensures if Sent(s, e).Some? then Latest(Next(s, e)) == Sent(s, e).value else Protects(Latest(Next(s, e)), Latest(s))
  {
    hide Trail, Flip, StopHit, AllSound, Protects, Latest, Kin;
    var t := Next(s, e);
    if Sent(s, e).Some? {
      SendKeeps(s, t, Sent(s, e).value, p);
    } else if t.objs == s.objs && t.cur == s.cur && t.queue == s.queue {
      SameKeeps(s, t, p);
    } else if e.Bars? {
      ObjectIsKin(s, s.phase.o, p);
      KinTrail(s.objs[s.phase.o], s.phase.price, p);
      WriteKeeps(s, t, s.phase.o, Trail(s.objs[s.phase.o], s.phase.price), p);
    } else if e.FlipWrite? {
      ObjectIsKin(s, s.flip.o, p);
      KinFlip(s.objs[s.flip.o], s.flip.now, p);
      WriteKeeps(s, t, s.flip.o, Flip(s.objs[s.flip.o], s.flip.now), p);
    } else {
      HearKeeps(s, p);
      ProtectsItself(Latest(s));
    }
  }

  lemma ObjectIsKin(s: Slot, o: nat, p: Position)
    requires AllSound(s, p) && o < |s.objs|
    ensures Kin(s.objs[o], p)
  {
  }

  lemma SameKeeps(s: Slot, t: Slot, p: Position)
    requires Ok(s) && Ok(t) && AllSound(s, p) && t.objs == s.objs && t.cur == s.cur && t.queue == s.queue
    ensures AllSound(t, p) && Protects(Latest(t), Latest(s))
  {
    hide Kin;
    ProtectsItself(Latest(s));
  }

  lemma NextMonitored(s: Slot, e: Step)
    requires Ok(s)
    ensures Next(s, e).monitored && !e.Refill? ==> s.monitored
  {
    hide Trail, Flip, StopHit;
  }

  lemma {:induction false} MonitoredBefore(s: Slot, steps: seq<Step>, i: nat)
    requires Ok(s) && i <= |steps| && Run(s, steps).monitored && OneLife(steps)
    ensures Run(s, steps[..i]).monitored
    decreases |steps|
  {
    hide Next;
    if i < |steps| {
      var init := steps[..|steps| - 1];
      assert init[..i] == steps[..i];
      assert steps[|steps| - 1] in steps && forall e <- init :: e in steps;
      NextMonitored(Run(s, init), steps[|steps| - 1]);
      MonitoredBefore(s, init, i);
    } else {
      assert steps[..i] == steps;
    }
  }

  lemma {:induction false} RunSound(s: Slot, steps: seq<Step>, p: Position)
    requires Ok(s) && AllSound(s, p) && Run(s, steps).monitored && OneLife(steps)
    ensures AllSound(Run(s, steps), p)
  {
    hide Next, AllSound;
    if steps != [] {
      var init := steps[..|steps| - 1];
      MonitoredBefore(s, steps, |steps| - 1);
      assert forall e <- init :: e in steps;
      RunSound(s, init, p);
      NextLatest(Run(s, init), steps[|steps| - 1], p);
    }
  }

  /** From moment i of the run to moment j: what the agent would monitor with its queue drained only tightens. */
  predicate DrainedTightens(s: Slot, steps: seq<Step>, i: nat, j: nat)
    requires Ok(s) && i <= j <= |steps|
  {
    Protects(Pos(Drain(Run(s, steps[..j]))), Pos(Drain(Run(s, steps[..i]))))
  }

  /** Writes and hearings never loosen: only a published update can. */
  lemma NoSetbackIff(s: Slot, steps: seq<Step>, p: Position)
    requires Ok(s) && AllSound(s, p) && Run(s, steps).monitored && OneLife(steps)
    ensures NoSetback(s, steps) <==> forall i: nat, j: nat :: i <= j <= |steps| ==> DrainedTightens(s, steps, i, j)
  {
    if NoSetback(s, steps) {
      forall i: nat, j: nat | i <= j <= |steps| ensures DrainedTightens(s, steps, i, j) {
        SteadyTightens(s, steps, p, i, j);
      }
    } else {
      var k :| 0 <= k < |steps| && Setback(Run(s, steps[..k]), steps[k]);
      LatestAt(s, steps, p, k);
      LatestAt(s, steps, p, k + 1);
      LatestStep(s, steps, p, k);
      assert !DrainedTightens(s, steps, k, k + 1);
    }
  }

  lemma LatestAt(s: Slot, steps: seq<Step>, p: Position, i: nat)
    requires Ok(s) && AllSound(s, p) && Run(s, steps).monitored && OneLife(steps) && i <= |steps|
    ensures Pos(Drain(Run(s, steps[..i]))) == Latest(Run(s, steps[..i]))
  {
    MonitoredBefore(s, steps, i);
    DrainedIsLatest(Run(s, steps[..i]));
  }

  lemma LatestStep(s: Slot, steps: seq<Step>, p: Position, i: nat)
    requires Ok(s) && AllSound(s, p) && Run(s, steps).monitored && OneLife(steps) && i < |steps|
    ensures Setback(Run(s, steps[..i]), steps[i])
        <==> !Protects(Latest(Run(s, steps[..i + 1])), Latest(Run(s, steps[..i])))
  {
    hide Next, AllSound, Protects, Latest;
    MonitoredBefore(s, steps, i);
    assert forall e <- steps[..i] :: e in steps;
    RunSound(s, steps[..i], p);
    assert steps[..i + 1][..i] == steps[..i];
    NextLatest(Run(s, steps[..i]), steps[i], p);
  }

  lemma {:induction false} SteadyTightens(s: Slot, steps: seq<Step>, p: Position, i: nat, j: nat)
    requires Ok(s) && AllSound(s, p) && Run(s, steps).monitored && OneLife(steps) && NoSetback(s, steps)
        && i <= j <= |steps|
    ensures DrainedTightens(s, steps, i, j)
    decreases j - i
  {
    hide Next, AllSound, Latest, Setback;
    LatestAt(s, steps, p, j);
    if i < j {
      SteadyTightens(s, steps, p, i, j - 1);
      LatestAt(s, steps, p, j - 1);
      LatestStep(s, steps, p, j - 1);
    } else {
      ProtectsItself(Pos(Drain(Run(s, steps[..j]))));
    }
  }

  lemma ProtectsItself(p: Position)
    ensures Protects(p, p)
  {
  }

  // ----- which updates are setbacks -----

  /** A run's slot, and for each queued update the object it was copied from; the same for the monitored object, with
      the update it was made from. */
  datatype Traced = Traced(s: Slot, sources: seq<nat>, origin: nat, heard: Position)

  function Untraced(s: Slot): Traced
    requires Ok(s)
  {
    Traced(s, [], s.cur, Pos(s))
  }

  /** The object a send publishes. */
  function Sender(s: Slot, e: Step): nat
    requires Ok(s) && Sent(s, e).Some?
  {
    if e == SendTrail then s.phase.o else s.flip.o
  }

  /** Every copy is known, and its source still protects it. */
  predicate Sourced(t: Traced) {
    && Ok(t.s) && |t.sources| == |t.s.queue|
    && (forall i :: 0 <= i < |t.sources| ==>
        t.sources[i] < |t.s.objs| && Protects(t.s.objs[t.sources[i]], t.s.queue[i]))
    && t.origin < |t.s.objs| && Protects(t.s.objs[t.origin], t.heard)
  }

  function TraceNext(t: Traced, e: Step): Traced
    requires Sourced(t)
  {
    var s := Next(t.s, e);
    if Sent(t.s, e).Some? then Traced(s, t.sources + [Sender(t.s, e)], t.origin, t.heard)
    else if e == Hear && t.s.queue != [] then
      if t.s.monitored then Traced(s, t.sources[1..], t.sources[0], t.s.queue[0])
          else t.(s := s, sources := t.sources[1..])
    else t.(s := s)
  }

  lemma ProtectsTransitive(a: Position, b: Position, c: Position)
    requires Protects(a, b) && Protects(b, c)
    ensures Protects(a, c)
  {
  }

  /** Objects only ever tighten, whoever holds them. */
  lemma ObjectsTighten(s: Slot, e: Step, p: Position, o: nat)
    requires Ok(s) && AllSound(s, p) && o < |s.objs|
    ensures o < |Next(s, e).objs| && Protects(Next(s, e).objs[o], s.objs[o])
  {
    ObjectIsKin(s, o, p);
    ProtectsItself(s.objs[o]);
    if s.phase.AwaitBars? && e.Bars? {
      ObjectIsKin(s, s.phase.o, p);
      KinTrail(s.objs[s.phase.o], s.phase.price, p);
    }
    if s.flip.Captured? && e == FlipWrite {
      ObjectIsKin(s, s.flip.o, p);
      KinFlip(s.objs[s.flip.o], s.flip.now, p);
    }
    hide Trail, Flip, StopHit, AllSound, Protects, Kin;
  }

  lemma TraceStays(t: Traced, e: Step, p: Position)
    requires Sourced(t) && AllSound(t.s, p)
    ensures Sourced(TraceNext(t, e))
  {
    forall o: nat | o < |t.s.objs| ensures o < |Next(t.s, e).objs| && Protects(Next(t.s, e).objs[o], t.s.objs[o]) {
      ObjectsTighten(t.s, e, p, o);
    }
    var u := TraceNext(t, e);
    hide Trail, Flip, StopHit, AllSound, Protects;
    QueueMoves(t.s, e);
    forall i | 0 <= i < |u.sources| ensures u.sources[i] < |u.s.objs|
        && Protects(u.s.objs[u.sources[i]], u.s.queue[i]) {
      if Sent(t.s, e).Some? && i == |t.sources| {
        ProtectsItself(Sent(t.s, e).value);
      } else if e == Hear && t.s.queue != [] {
        ProtectsTransitive(u.s.objs[u.sources[i]], t.s.objs[u.sources[i]], t.s.queue[i + 1]);
      } else {
        ProtectsTransitive(u.s.objs[u.sources[i]], t.s.objs[u.sources[i]], t.s.queue[i]);
      }
    }
    ProtectsTransitive(u.s.objs[u.origin], t.s.objs[u.origin], u.heard);
  }

  lemma QueueMoves(s: Slot, e: Step)
    requires Ok(s)
    ensures Next(s, e).queue == if Sent(s, e).Some? then s.queue + [Sent(s, e).value]
                                else if e == Hear && s.queue != [] then s.queue[1..] else s.queue
    ensures Sent(s, e).Some? ==> Next(s, e).objs == s.objs
  {
    hide Trail, Flip, StopHit;
  }

  /** An update is sent from the source of the last one: of the last queued, or with none queued from the monitored
      object, or from the one that was copied to it while it is as it was heard. */
  predicate FromSource(t: Traced, e: Step)
    requires Sourced(t)
  {
    Sent(t.s, e).Some? ==>
      var o := Sender(t.s, e);
      if t.sources != [] then o == t.sources[|t.sources| - 1]
      else o == t.s.cur || (o == t.origin && Pos(t.s) == t.heard)
  }

  lemma SourceIsNoSetback(t: Traced, e: Step)
    requires Sourced(t) && FromSource(t, e)
    ensures !Setback(t.s, e)
  {
    hide Protects;
    ProtectsItself(Pos(t.s));
  }

  /** A run in which every update is sent from the source of the last one. */
  predicate KeepsSource(t: Traced, steps: seq<Step>, p: Position)
    requires Sourced(t) && AllSound(t.s, p)
    decreases |steps|
  {
    steps != [] ==>
      FromSource(t, steps[0])
      && (t.s.monitored ==> (TraceStays(t, steps[0], p); NextLatest(t.s, steps[0], p);
                             KeepsSource(TraceNext(t, steps[0]), steps[1..], p)))
  }

  lemma RunCons(s: Slot, e: Step, steps: seq<Step>)
    requires Ok(s)
    ensures Run(s, [e] + steps) == Run(Next(s, e), steps)
  {
    hide *;
    RunAppend(s, [e], steps);
    RunThree(s, e, e, e);
  }

  /** Such a run has no setback, however many updates are queued at any time. */
  lemma {:induction false} SourcesTighten(t: Traced, steps: seq<Step>, p: Position)
    requires Sourced(t) && AllSound(t.s, p) && KeepsSource(t, steps, p) && OneLife(steps) && Run(t.s, steps).monitored
    ensures NoSetback(t.s, steps)
    decreases |steps|
  {
    assert Ok(t.s);
    hide Next, AllSound, Setback, FromSource, Sourced, TraceNext, Run;
    if steps != [] {
      var e, rest := steps[0], steps[1..];
      assert steps == [e] + rest && steps[..0] == [];
      assert forall x <- rest :: x in steps;
      MonitoredBefore(t.s, steps, 0);
      RunNone(t.s);
      SourceIsNoSetback(t, e);
      TraceStays(t, e, p);
      NextLatest(t.s, e, p);
      RunCons(t.s, e, rest);
      TraceSlot(t, e);
      SourcesTighten(TraceNext(t, e), rest, p);
      forall i | 0 <= i < |steps| ensures !Setback(Run(t.s, steps[..i]), steps[i]) {
        if i > 0 {
          assert steps[..i] == [e] + rest[..i - 1];
          RunCons(t.s, e, rest[..i - 1]);
          assert !Setback(Run(Next(t.s, e), rest[..i - 1]), rest[i - 1]);
        }
      }
    }
  }

  lemma TraceSlot(t: Traced, e: Step)
    requires Sourced(t)
    ensures TraceNext(t, e).s == Next(t.s, e)
  {
  }

  // ----- what a setback lacks -----

  /** Unflipped, or flipped once at a moment that left the time stop t. */
  predicate Variant(q: Position, p: Position, t: Option<int>) {
    && Kin(q, p)
    && ((q.stop == p.stop && q.timeStop == p.timeStop)
        || (t.Some? && q.stop == Flip(p, 0).stop && q.timeStop == t.value <= p.timeStop))
  }

  predicate Variants(s: Slot, p: Position, t: Option<int>) {
    && (forall i :: 0 <= i < |s.objs| ==> Variant(s.objs[i], p, t))
    && (forall i :: 0 <= i < |s.queue| ==> Variant(s.queue[i], p, t))
  }

  predicate Flipped(q: Position, p: Position) {
    q.stop != p.stop
  }

  lemma TrailVariant(q: Position, price: real, p: Position, t: Option<int>)
    requires Variant(q, p, t)
    ensures Variant(Trail(q, price), p, t)
  {
    KinTrail(q, price, p);
  }

  lemma FlipVariant(q: Position, now: int, p: Position)
    requires Variant(q, p, None)
    ensures Variant(Flip(q, now), p, Some(Flip(q, now).timeStop))
  {
    KinFlip(q, now, p);
  }

  /** While monitored, at most one flip is ever written. */
  lemma NextVariants(s: Slot, e: Step, p: Position, t: Option<int>) returns (u: Option<int>)
    requires Ok(s) && Variants(s, p, t) && (t.Some? ==> s.tightened) && s.monitored && Next(s, e).monitored
    ensures Variants(Next(s, e), p, u) && (u.Some? ==> Next(s, e).tightened)
  {
    u := t;
    if s.phase.AwaitBars? && e.Bars? { TrailVariant(s.objs[s.phase.o], s.phase.price, p, t); }
    if s.flip.Captured? && e == FlipWrite && !s.tightened {
      FlipVariant(s.objs[s.flip.o], s.flip.now, p);
      u := Some(Flip(s.objs[s.flip.o], s.flip.now).timeStop);
    }
    hide Trail, Flip, StopHit, Kin;
  }

  lemma {:induction false} RunVariants(p: Position, entrySpread: real, steps: seq<Step>) returns (t: Option<int>)
    requires Losing(p) && p.trailing == None && OneLife(steps) && Run(Opened(p, entrySpread), steps).monitored
    ensures var r := Run(Opened(p, entrySpread), steps); Variants(r, p, t) && (t.Some? ==> r.tightened)
  {
    if steps == [] {
      t := None;
    } else {
      hide Next, Variants;
      var s, k := Opened(p, entrySpread), |steps| - 1;
      MonitoredBefore(s, steps, k);
      assert forall e <- steps[..k] :: e in steps;
      var u := RunVariants(p, entrySpread, steps[..k]);
      t := NextVariants(Run(s, steps[..k]), steps[k], p, u);
    }
  }

  /** The update lacks a trailing stop the last one has. */
  predicate LacksTrail(q: Position, last: Position) {
    last.trailing.Some?
    && (q.trailing == None || Toward(q.direction, q.trailing.value) < Toward(q.direction, last.trailing.value))
  }

  /** The update lacks the flip the last one has, and with it an earlier time stop or the tighter of two plain stops. */
  predicate LacksFlip(q: Position, last: Position, p: Position) {
    Flipped(last, p) && !Flipped(q, p) && (last.timeStop < p.timeStop || q.trailing == None)
  }

  lemma LacksIff(q: Position, last: Position, p: Position, t: Option<int>)
    requires Variant(q, p, t) && Variant(last, p, t) && Losing(p) && Risk(p) > 0.0
    ensures !Protects(q, last) <==> LacksTrail(q, last) || LacksFlip(q, last, p)
  {
  }

  /** In every run of a newly opened position, a published update is a setback if and only if its object lacks the
      flip or a trailing stop that the last update has: one written to another object. */
  lemma SetbackIffLacks(p: Position, entrySpread: real, steps: seq<Step>, e: Step)
    requires Losing(p) && p.trailing == None && Risk(p) > 0.0 && OneLife(steps)
    requires Run(Opened(p, entrySpread), steps).monitored
    ensures var r := Run(Opened(p, entrySpread), steps);
            Setback(r, e) <==>
            Sent(r, e).Some? && (LacksTrail(Sent(r, e).value, Latest(r)) || LacksFlip(Sent(r, e).value, Latest(r), p))
  {
    var t := RunVariants(p, entrySpread, steps);
    var r := Run(Opened(p, entrySpread), steps);
    hide Run, Next;
    if Sent(r, e).Some? {
      LatestVariant(r, e, p, t);
      LacksIff(Sent(r, e).value, Latest(r), p, t);
    }
  }

  /** What step k publishes, if anything, lacks nothing the last update has. */
  predicate LacksNothing(s: Slot, steps: seq<Step>, k: nat, p: Position)
    requires Ok(s) && k < |steps|
  {
    var r := Run(s, steps[..k]);
    Sent(r, steps[k]).Some? ==>
      !LacksTrail(Sent(r, steps[k]).value, Latest(r)) && !LacksFlip(Sent(r, steps[k]).value, Latest(r), p)
  }

  /** While a newly opened position is monitored, what the agent comes to monitor once it has heard its own updates
      only tightens if and only if no update is published from an object that lacks the flip or the trailing stop of
      the last. */
  lemma DrainedTightensIff(p: Position, entrySpread: real, steps: seq<Step>)
    requires Losing(p) && p.trailing == None && Risk(p) > 0.0 && OneLife(steps)
    requires Run(Opened(p, entrySpread), steps).monitored
    ensures (forall i: nat, j: nat :: i <= j <= |steps| ==> DrainedTightens(Opened(p, entrySpread), steps, i, j))
            <==> forall k: nat :: k < |steps| ==> LacksNothing(Opened(p, entrySpread), steps, k, p)
  {
    var s := Opened(p, entrySpread);
    assert AllSound(s, p);
    NoSetbackIff(s, steps, p);
    hide *;
    forall k: nat | k < |steps| ensures LacksNothing(s, steps, k, p) <==> !Setback(Run(s, steps[..k]), steps[k]) {
      MonitoredBefore(s, steps, k);
      OneLifeBefore(steps, k);
      SetbackIffLacks(p, entrySpread, steps[..k], steps[k]);
      LacksNothingIs(s, steps, k, p);
    }
    NoSetbackIs(s, steps);
  }

  lemma OneLifeBefore(steps: seq<Step>, k: nat)
    requires OneLife(steps) && k <= |steps|
    ensures OneLife(steps[..k])
  {
    assert forall e <- steps[..k] :: e in steps;
  }

  lemma LacksNothingIs(s: Slot, steps: seq<Step>, k: nat, p: Position)
    requires Ok(s) && k < |steps|
    ensures var r := Run(s, steps[..k]);
            LacksNothing(s, steps, k, p) <==>
            !(Sent(r, steps[k]).Some?
              && (LacksTrail(Sent(r, steps[k]).value, Latest(r)) || LacksFlip(Sent(r, steps[k]).value, Latest(r), p)))
  {
    hide Run, LacksTrail, LacksFlip;
  }

  lemma NoSetbackIs(s: Slot, steps: seq<Step>)
    requires Ok(s)
    ensures NoSetback(s, steps) <==> forall k: nat :: k < |steps| ==> !Setback(Run(s, steps[..k]), steps[k])
  {
    hide Run, Setback;
  }

  lemma LatestVariant(s: Slot, e: Step, p: Position, t: Option<int>)
    requires Ok(s) && Variants(s, p, t) && Sent(s, e).Some?
    ensures Variant(Sent(s, e).value, p, t) && Variant(Latest(s), p, t)
  {
    hide Variant;
  }

  // ----- two runs that lose protection -----

  function Round(now: int, price: real): seq<Step> {
    [Launch, Begin(now), Tick(price, 0.0), Bars(false)] + [SendTrail]
  }

  function FlipRound(now: int): seq<Step> {
    [FlipCapture(now), FlipWrite, FlipSend]
  }

  /** A monitored slot with nothing under way. */
  function Quiet(objs: seq<Position>, cur: nat, queue: seq<Position>, entrySpread: real, tightened: bool): Slot {
    Slot(objs, cur, queue, entrySpread, true, tightened, Idle, NoFlip, [])
  }

  /** A round that moves the trailing stop writes the monitored object and publishes it. */
  lemma RoundTrails(objs: seq<Position>, cur: nat, queue: seq<Position>, entrySpread: real, tightened: bool,
                    now: int, price: real, q: Position)
    requires cur < |objs| && now < objs[cur].timeStop && !StopHit(objs[cur], price)
        && Trail(objs[cur], price) == q != objs[cur]
    ensures Run(Quiet(objs, cur, queue, entrySpread, tightened), Round(now, price))
            == Quiet(objs[cur := q], cur, queue + [q], entrySpread, tightened)
  {
    hide Trail, StopHit, Run;
    var s := Quiet(objs, cur, queue, entrySpread, tightened);
    var four := [Launch, Begin(now), Tick(price, 0.0), Bars(false)];
    RunFour(s, Launch, Begin(now), Tick(price, 0.0), Bars(false));
    RunSnoc(s, four, SendTrail);
    assert Next(s, Launch) == s.(phase := Launched(cur));
    assert Next(s.(phase := Launched(cur)), Begin(now)) == s.(phase := AwaitTick(cur));
    assert Next(s.(phase := AwaitTick(cur)), Tick(price, 0.0)) == s.(phase := AwaitBars(cur, price, 0.0));
    assert Next(s.(phase := AwaitBars(cur, price, 0.0)), Bars(false))
        == s.(objs := objs[cur := q], phase := AwaitSend(cur));
  }

  lemma RoundFlips(objs: seq<Position>, cur: nat, queue: seq<Position>, entrySpread: real, now: int, q: Position)
    requires cur < |objs| && Flip(objs[cur], now) == q
    ensures Run(Quiet(objs, cur, queue, entrySpread, false), FlipRound(now))
            == Quiet(objs[cur := q], cur, queue + [q], entrySpread, true)
  {
    hide Flip, Run;
    var s := Quiet(objs, cur, queue, entrySpread, false);
    RunThree(s, FlipCapture(now), FlipWrite, FlipSend);
    assert Next(s, FlipCapture(now)) == s.(flip := Captured(cur, now));
    assert Next(s.(flip := Captured(cur, now)), FlipWrite)
        == s.(objs := objs[cur := q], tightened := true, flip := Sending(cur));
  }

  lemma HearOne(objs: seq<Position>, cur: nat, q: Position, rest: seq<Position>, entrySpread: real, tightened: bool)
    requires cur < |objs|
    ensures Run(Quiet(objs, cur, [q] + rest, entrySpread, tightened), [Hear])
            == Quiet(objs + [q], |objs|, rest, entrySpread, tightened)
  {
    hide Run;
    var s := Quiet(objs, cur, [q] + rest, entrySpread, tightened);
    RunThree(s, Hear, Hear, Hear);
    assert s.queue[1..] == rest;
  }

  lemma HearTwo(objs: seq<Position>, cur: nat, q: Position, last: Position, entrySpread: real, tightened: bool)
    requires cur < |objs|
    ensures Run(Quiet(objs, cur, [q, last], entrySpread, tightened), [Hear] + [Hear])
            == Quiet(objs + [q] + [last], |objs| + 1, [], entrySpread, tightened)
  {
    hide Run;
    var s := Quiet(objs, cur, [q, last], entrySpread, tightened);
    assert [q, last] == [q] + [last] && [last] + [] == [last];
    HearOne(objs, cur, q, [last], entrySpread, tightened);
    HearOne(objs + [q], |objs|, last, [], entrySpread, tightened);
    RunAppend(s, [Hear], [Hear]);
  }

  /** The price at a given multiple of the risk in the trade's favour. */
  function PriceAt(p: Position, multiple: real): real {
    if p.direction == Long then p.entry + multiple * Risk(p) else p.entry - multiple * Risk(p)
  }

  lemma TrailAt(p: Position)
    requires Losing(p) && Risk(p) > 0.0
    ensures var even, locked := p.entry, if p.direction == Long then p.entry + 0.5 * Risk(p)
        else p.entry - 0.5 * Risk(p);
            && (p.trailing == None ==> Trail(p, PriceAt(p, 1.0)) == p.(trailing := Some(even)))
            && (p.trailing in {None, Some(even)} ==> Trail(p, PriceAt(p, 1.5)) == p.(trailing := Some(locked)))
            && (p.trailing in {None, Some(even)} ==> !StopHit(p, PriceAt(p, 1.0)) && !StopHit(p, PriceAt(p, 1.5)))
  {
    Multiple(Risk(p), 1.0);
    Multiple(Risk(p), 1.5);
  }

  lemma Multiple(risk: real, m: real)
    requires risk > 0.0
    ensures m * risk / risk == m
  {
    ProductOver(m, risk);
  }

  lemma RunFive(s: Slot, a: seq<Step>, b: seq<Step>, c: seq<Step>, d: seq<Step>, e: seq<Step>)
    requires Ok(s)
    ensures Run(s, a + b) == Run(Run(s, a), b)
    ensures Run(s, a + b + c + d + e) == Run(Run(Run(Run(Run(s, a), b), c), d), e)
  {
    hide Run;
    RunAppend(s, a + b + c + d, e);
    RunAppend(s, a + b + c, d);
    RunAppend(s, a + b, c);
    RunAppend(s, a, b);
  }

  /** Breakeven, a flip, the breakeven update heard, the trail taken from it, and the other two updates heard. */
  lemma UndoneRun(p: Position, even: Position, flat: Position, locked: Position, entrySpread: real, now: int,
                  p1: real, p2: real)
    requires now < p.timeStop && now < even.timeStop && even != p && locked != even
    requires !StopHit(p, p1) && Trail(p, p1) == even && Flip(even, now) == flat
    requires !StopHit(even, p2) && Trail(even, p2) == locked
    ensures var first := Round(now, p1) + FlipRound(now);
            && Run(Opened(p, entrySpread), first) == Quiet([flat], 0, [even, flat], entrySpread, true)
            && Run(Opened(p, entrySpread), first + [Hear] + Round(now, p2) + ([Hear] + [Hear]))
               == Quiet([flat, locked, flat, locked], 3, [], entrySpread, true)
  {
    hide Flip, Trail, StopHit, Run, Quiet, Round, FlipRound;
    OpenedIsQuiet(p, entrySpread);
    RunFive(Opened(p, entrySpread), Round(now, p1), FlipRound(now), [Hear], Round(now, p2), [Hear] + [Hear]);
    RoundTrails([p], 0, [], entrySpread, false, now, p1, even);
    assert [p][0 := even] == [even] && [] + [even] == [even];
    RoundFlips([even], 0, [even], entrySpread, now, flat);
    assert [even][0 := flat] == [flat] && [even] + [flat] == [even, flat];
    HearOne([flat], 0, even, [flat], entrySpread, true);
    assert [flat] + [even] == [flat, even];
    RoundTrails([flat, even], 1, [flat], entrySpread, true, now, p2, locked);
    assert [flat, even][1 := locked] == [flat, locked] && [flat] + [locked] == [flat, locked];
    HearTwo([flat, locked], 1, flat, locked, entrySpread, true);
    assert [flat, locked] + [flat] + [locked] == [flat, locked, flat, locked];
  }

  lemma OpenedIsQuiet(p: Position, entrySpread: real)
    ensures Opened(p, entrySpread) == Quiet([p], 0, [], entrySpread, false)
  {
  }

  /** The time stop can come back for good, and with it the whole risk: every later flip finds the position
      tightened. */
  lemma FlipCanBeUndone(p: Position, entrySpread: real, now: int)
    requires Losing(p) && p.trailing == None && Risk(p) > 0.0 && now + HOLD_COMPRESS < p.timeStop
    ensures var first := Round(now, PriceAt(p, 1.0)) + FlipRound(now);
            var s := Run(Opened(p, entrySpread), first);
            var r := Run(Opened(p, entrySpread), first + [Hear] + Round(now, PriceAt(p, 1.5)) + ([Hear] + [Hear]));
            && Latest(s).timeStop == now + HOLD_COMPRESS && Risk(Latest(s)) == Risk(p) * 0.5
            && r.monitored && r.queue == [] && r.phase == Idle && r.flip == NoFlip && r.tightened
            && Pos(r).timeStop == p.timeStop && Pos(r).stop == p.stop
  {
    var even := p.(trailing := Some(p.entry));
    var locked := p.(trailing := Some(if p.direction == Long then p.entry + 0.5 * Risk(p)
        else p.entry - 0.5 * Risk(p)));
    TrailAt(p);
    TrailAt(even);
    FlipProtects(even, now);
    assert Flip(even, now).timeStop == now + HOLD_COMPRESS;
    hide Flip, Trail, StopHit, Run, PriceAt, Round, FlipRound;
    UndoneRun(p, even, Flip(even, now), locked, entrySpread, now, PriceAt(p, 1.0), PriceAt(p, 1.5));
  }

  /** Breakeven, the lock, the breakeven update heard, a flip of it, and the other two updates heard. */
  lemma LostRun(p: Position, even: Position, flat: Position, locked: Position, entrySpread: real, now: int, p1: real,
                p2: real)
    requires now < p.timeStop && now < even.timeStop && even != p && locked != even
    requires !StopHit(p, p1) && Trail(p, p1) == even && Flip(even, now) == flat
    requires !StopHit(even, p2) && Trail(even, p2) == locked
    ensures var first := Round(now, p1) + Round(now, p2);
            && Run(Opened(p, entrySpread), first) == Quiet([locked], 0, [even, locked], entrySpread, false)
            && Run(Opened(p, entrySpread), first + [Hear] + FlipRound(now) + ([Hear] + [Hear]))
               == Quiet([locked, flat, locked, flat], 3, [], entrySpread, true)
  {
    hide Flip, Trail, StopHit, Run, Quiet, Round, FlipRound;
    OpenedIsQuiet(p, entrySpread);
    RunFive(Opened(p, entrySpread), Round(now, p1), Round(now, p2), [Hear], FlipRound(now), [Hear] + [Hear]);
    RoundTrails([p], 0, [], entrySpread, false, now, p1, even);
    assert [p][0 := even] == [even] && [] + [even] == [even];
    RoundTrails([even], 0, [even], entrySpread, false, now, p2, locked);
    assert [even][0 := locked] == [locked] && [even] + [locked] == [even, locked];
    HearOne([locked], 0, even, [locked], entrySpread, false);
    assert [even] + [locked] == [even, locked] && [locked] + [even] == [locked, even];
    RoundFlips([locked, even], 1, [locked], entrySpread, now, flat);
    assert [locked, even][1 := flat] == [locked, flat] && [locked] + [flat] == [locked, flat];
    HearTwo([locked, flat], 1, locked, flat, entrySpread, true);
    assert [locked, flat] + [locked] + [flat] == [locked, flat, locked, flat];
  }

  /** A locked profit can be lost for good: the stop is back at breakeven. */
  lemma LockCanBeLost(p: Position, entrySpread: real, now: int)
    requires Losing(p) && p.trailing == None && Risk(p) > 0.0 && now < p.timeStop
    ensures var first := Round(now, PriceAt(p, 1.0)) + Round(now, PriceAt(p, 1.5));
            var s := Run(Opened(p, entrySpread), first);
            var r := Run(Opened(p, entrySpread), first + [Hear] + FlipRound(now) + ([Hear] + [Hear]));
            && Toward(p.direction, Effective(Latest(s))) == Toward(p.direction, p.entry) + 0.5 * Risk(p)
            && r.monitored && r.queue == [] && r.phase == Idle && r.flip == NoFlip
            && Effective(Pos(r)) == p.entry
  {
    var even := p.(trailing := Some(p.entry));
    var locked := p.(trailing := Some(if p.direction == Long then p.entry + 0.5 * Risk(p)
        else p.entry - 0.5 * Risk(p)));
    TrailAt(p);
    TrailAt(even);
    FlipKeepsTrailing(even, now);
    hide Flip, Trail, StopHit, Run, PriceAt, Round, FlipRound;
    LostRun(p, even, Flip(even, now), locked, entrySpread, now, PriceAt(p, 1.0), PriceAt(p, 1.5));
  }

  lemma FlipKeepsTrailing(p: Position, now: int)
    ensures Flip(p, now).trailing == p.trailing
  {
  }

  // ---------- The position as the agent keeps it ----------

  /** A round of which no part is interrupted. */
  function Evaluated(s: Slot, now: int, price: Option<real>, spread: real, expanded: bool): Slot
    requires Ok(s)
  {
    var checked := Next(Next(s, Launch), Begin(now));
    var ticked := Next(checked, if price.Some? then Tick(price.value, spread) else NoTick);
    Next(Next(ticked, Bars(expanded)), SendTrail)
  }

  lemma Uninterrupted(s: Slot, now: int, price: Option<real>, spread: real, expanded: bool)
    requires Ok(s) && s.phase == Idle
    ensures Evaluated(s, now, price, spread, expanded) ==
            if !s.monitored then s
            else if now >= Pos(s).timeStop then Exit(s, TimeStop)
            else if price == None then s
            else if StopHit(Pos(s), price.value) then Exit(s, PriceStop)
            else if expanded then Exit(s, AtrExpansion)
            else if s.entrySpread > 0.0 && spread > 2.0 * s.entrySpread then Exit(s, SpreadDoubling)
            else var q := Trail(Pos(s), price.value);
                 if q == Pos(s) then s else s.(objs := s.objs[s.cur := q], queue := s.queue + [q])
  {
    hide Trail, StopHit;
  }

  /** The exit of an uninterrupted round, in the order of the checks, and from the fields alone: the time stop, no tick,
      the stop, the bars, the spread. */
  lemma RoundExitsIff(s: Slot, now: int, price: Option<real>, spread: real, expanded: bool)
    requires Ok(s) && s.phase == Idle
    ensures var p, r := Pos(s), Evaluated(s, now, price, spread, expanded);
            && r.exits == s.exits + (if !s.monitored then []
                                     else if now >= p.timeStop then [TimeStop]
                                     else if price == None then []
                                     else if Stops(p, price.value) then [PriceStop]
                                     else if expanded then [AtrExpansion]
                                     else if s.entrySpread > 0.0 && spread > 2.0 * s.entrySpread then [SpreadDoubling]
                                     else [])
            && (r.monitored <==> s.monitored && r.exits == s.exits)
            && r.tightened == (s.tightened && (s.monitored ==> r.monitored))
  {
    hide Trail;
  }

  class Monitor {
    const direction: Direction
    const entry: real
    const entrySpread: real
    var stop: real
    var trailing: Option<real>
    var timeStop: int
    var monitored: bool
    var tightened: bool
    var exits: seq<ExitMode>
    var queue: seq<Position>
    ghost var replaced: seq<Position>

    ghost function Held(): Position
      reads this
    {
      Position(direction, entry, stop, trailing, timeStop)
    }

    /** Between rounds; `replaced` are the objects that heard updates have taken the place of. */
    ghost function State(): (s: Slot)
      reads this
      ensures Ok(s)
    {
      Slot(replaced + [Held()], |replaced|, queue, entrySpread, monitored, tightened, Idle, NoFlip, exits)
    }

    ghost predicate Valid()
      reads this
    {
      forall q <- queue :: q.direction == direction && q.entry == entry
    }

    constructor (p: Position, entrySpread: real)
      ensures State() == Opened(p, entrySpread) && Valid()
    {
      direction, entry, this.entrySpread := p.direction, p.entry, entrySpread;
      stop, trailing, timeStop := p.stop, p.trailing, p.timeStop;
      monitored, tightened, exits, queue, replaced := true, false, [], [], [];
    }

    method TriggerExit(mode: ExitMode)
      modifies this`monitored, this`tightened, this`exits
      ensures State() == Exit(old(State()), mode)
    {
      monitored, tightened, exits := false, false, exits + [mode];
    }

    /** The new trailing stop, if any, is published once written. */
    method UpdateTrailingStop(price: real)
      requires Valid()
      modifies this`trailing, this`queue
      ensures Valid() && Held() == Trail(old(Held()), price)
      ensures queue == if Held() == old(Held()) then old(queue) else old(queue) + [Held()]
    {
      var risk := if entry - stop < 0.0 then stop - entry else entry - stop;
      if risk <= 0.0 { return; }
      var profit := if direction == Long then price - entry else entry - price;
      var level := entry;
      if profit / risk >= 1.5 {
        level := if direction == Long then entry + 0.5 * risk else entry - 0.5 * risk;
      } else if profit / risk < 1.0 {
        return;
      }
      if trailing == None || (if direction == Long then level > trailing.value else level < trailing.value) {
        trailing := Some(level);
        queue := queue + [Position(direction, entry, stop, trailing, timeStop)];
      }
    }

    method ApplyRegimeFlip(now: int)
      requires Valid()
      modifies this`stop, this`timeStop, this`tightened, this`queue
      ensures Valid() && State() == Run(old(State()), FlipRound(now))
    {
      hide Run;
      RunThree(State(), FlipCapture(now), FlipWrite, FlipSend);
      ghost var was := State();
      if !monitored || tightened { return; }
      var risk := (if entry - stop < 0.0 then stop - entry else entry - stop) * 0.5;
      if direction == Long {
        if entry - risk > stop { stop := entry - risk; }
      } else {
        if entry + risk < stop { stop := entry + risk; }
      }
      if now + HOLD_COMPRESS < timeStop { timeStop := now + HOLD_COMPRESS; }
      tightened := true;
      assert Held() == Flip(old(Held()), now);
      queue := queue + [Position(direction, entry, stop, trailing, timeStop)];
    }

    /** An update the agent published comes back and takes the position's place. */
    method HandlePositionUpdate()
      requires Valid() && queue != []
      modifies this`stop, this`trailing, this`timeStop, this`queue, this`replaced
      ensures Valid() && State() == Next(old(State()), Hear)
    {
      var update := queue[0];
      queue := queue[1..];
      if monitored {
        replaced := replaced + [Held()];
        stop, trailing, timeStop := update.stop, update.trailing, update.timeStop;
      }
    }

    /** A round with nothing in between is a run of its steps; without a tick, a shorter one. */
    method EvaluatePosition(now: int, price: Option<real>, spread: real, expanded: bool)
      requires Valid()
      modifies this
      ensures Valid()
      ensures State() == Evaluated(old(State()), now, price, spread, expanded)
      ensures exits == old(exits) + (if !old(monitored) then []
                                     else if now >= old(timeStop) then [TimeStop]
                                     else if price == None then []
                                     else if Stops(old(Held()), price.value) then [PriceStop]
                                     else if expanded then [AtrExpansion]
                                     else if entrySpread > 0.0 && spread > 2.0 * entrySpread then [SpreadDoubling]
                                     else [])
    {
      RoundExitsIff(State(), now, price, spread, expanded);
      hide Trail, Evaluated, Stops;
      Uninterrupted(State(), now, price, spread, expanded);
      if !monitored { return; }
      if now >= timeStop {
        TriggerExit(TimeStop);
        return;
      }
      if price == None { return; }
      var effective := if trailing.Some? then trailing.value else stop;
      if (direction == Long && price.value <= effective) || (direction == Short && price.value >= effective) {
        TriggerExit(PriceStop);
        return;
      }
      if expanded {
        TriggerExit(AtrExpansion);
        return;
      }
      if entrySpread > 0.0 && spread > 2.0 * entrySpread {
        TriggerExit(SpreadDoubling);
        return;
      }
      UpdateTrailingStop(price.value);
    }
  }
}

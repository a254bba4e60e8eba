/** The supervisor's books and circuit breakers, and its message handlers run to completion. */
module Supervisor {
  import opened Text
  import opened Reals
  import opened Windows
  import Sm = SessionStateMachine
  import opened SupervisorModel

  datatype Config = Config(lossCapPct: real, cbWindow: int, cbThreshold: int, cbPause: int,
                           velWindow: int, velThreshold: real, pdtMinimum: real)

  // ---------- Bounded windows ----------

  const STOPOUTS_KEPT: nat := 20
  const LOSSES_KEPT: nat := 100

  function ClosedAt(log: seq<Loss>): (r: seq<int>)
    ensures |r| == |log| && forall i :: 0 <= i < |r| ==> r[i] == log[i].at
  {
    if log == [] then [] else ClosedAt(log[..|log| - 1]) + [log[|log| - 1].at]
  }

  function CountSince(times: seq<int>, cutoff: int): nat {
    if times == [] then 0
    else CountSince(times[..|times| - 1], cutoff) + if times[|times| - 1] >= cutoff then 1 else 0
  }

  predicate InOrder(times: seq<int>) {
    forall i, j :: 0 <= i < j < |times| ==> times[i] <= times[j]
  }

  lemma {:induction false} CountAppend(a: seq<int>, b: seq<int>, cutoff: int)
    ensures CountSince(a + b, cutoff) == CountSince(a, cutoff) + CountSince(b, cutoff)
    decreases |b|
  {
    if b == [] {
      assert a + b == a;
    } else {
      assert (a + b)[..|a + b| - 1] == a + b[..|b| - 1];
      CountAppend(a, b[..|b| - 1], cutoff);
    }
  }

  lemma {:induction false} CountRange(times: seq<int>, cutoff: int)
    ensures CountSince(times, cutoff) <= |times|
    ensures (forall i :: 0 <= i < |times| ==> times[i] >= cutoff) ==> CountSince(times, cutoff) == |times|
    ensures (forall i :: 0 <= i < |times| ==> times[i] < cutoff) ==> CountSince(times, cutoff) == 0
  {
    if times != [] { CountRange(times[..|times| - 1], cutoff); }
  }

  /** In a log in time order, everything from a recent entry on is recent. */
  lemma {:induction false} RecentTail(times: seq<int>, cutoff: int, j: nat)
    requires InOrder(times) && j < |times| && times[j] >= cutoff
    ensures CountSince(times, cutoff) >= |times| - j
    decreases |times|
  {
    if j < |times| - 1 { RecentTail(times[..|times| - 1], cutoff, j); }
  }

  lemma DropOld(times: seq<int>, cutoff: int, k: nat)
    requires InOrder(times) && 0 < k <= |times| && times[k - 1] < cutoff
    ensures CountSince(times[k..], cutoff) == CountSince(times, cutoff)
  {
    assert times[..k] + times[k..] == times;
    CountAppend(times[..k], times[k..], cutoff);
    CountRange(times[..k], cutoff);
  }

  /** Forgetting all but the last n losses never hides a breach of a threshold of at most n. */
  lemma KeptStopoutsSuffice(times: seq<int>, cutoff: int, n: nat, threshold: int)
    requires InOrder(times) && threshold <= n
    ensures CountSince(Kept(times, n), cutoff) >= threshold <==> CountSince(times, cutoff) >= threshold
  {
    hide CountSince, InOrder;
    var k := |times| - n;
    if k > 0 && times[k - 1] < cutoff {
      DropOld(times, cutoff, k);
    } else if k > 0 {
      RecentTail(times, cutoff, k - 1);
      KeptRecent(times, cutoff, k);
    }
  }

  lemma KeptRecent(times: seq<int>, cutoff: int, k: nat)
    requires InOrder(times) && 0 < k <= |times| && times[k - 1] >= cutoff
    ensures CountSince(times[k..], cutoff) == |times| - k
  {
    CountRange(times[k..], cutoff);
  }

  lemma {:induction false} LostIsNotNegative(log: seq<Loss>, cutoff: int)
    requires forall l <- log :: l.amount >= 0.0
    ensures LostSince(log, cutoff) >= 0.0
    ensures (forall i :: 0 <= i < |log| ==> log[i].at < cutoff) ==> LostSince(log, cutoff) == 0.0
  {
    if log != [] { LostIsNotNegative(log[..|log| - 1], cutoff); }
  }

  lemma OldLosses(log: seq<Loss>, cutoff: int, k: nat)
    requires InOrder(ClosedAt(log)) && (forall l <- log :: l.amount >= 0.0) && 0 < k <= |log| && log[k - 1].at < cutoff
    ensures LostSince(log[..k], cutoff) == 0.0
  {
    var times := ClosedAt(log);
    forall i | 0 <= i < k ensures log[..k][i].at < cutoff {
      assert times[i] <= times[k - 1];
    }
    LostIsNotNegative(log[..k], cutoff);
  }

  /** Forgetting all but the last n losses never overstates the money lost in a window, and loses nothing of it when the
      window holds at most n losses. */
  lemma KeptLossesSuffice(log: seq<Loss>, cutoff: int, n: nat)
    requires InOrder(ClosedAt(log)) && forall l <- log :: l.amount >= 0.0
    ensures LostSince(Kept(log, n), cutoff) <= LostSince(log, cutoff)
    ensures CountSince(ClosedAt(log), cutoff) <= n ==> LostSince(Kept(log, n), cutoff) == LostSince(log, cutoff)
  {
    hide CountSince, LostSince, InOrder;
    var k := |log| - n;
    if k > 0 {
      assert log[..k] + log[k..] == log;
      LostAppend(log[..k], log[k..], cutoff);
      LostIsNotNegative(log[..k], cutoff);
      if log[k - 1].at < cutoff {
        OldLosses(log, cutoff, k);
      } else {
        RecentTail(ClosedAt(log), cutoff, k - 1);
      }
    }
  }

  // ---------- Handlers as runs of steps ----------

  function HaltFully(c: Control, reason: string, b: Breach): Control {
    if c.system == Halted then c else Save(HaltNow(c, reason, b))
  }

  function PauseFully(c: Control, now: int, duration: int): Control {
    if c.system == Halted || c.system == Paused then c else Save(PauseNow(c, now, duration))
  }

  function ResumeFully(c: Control, approvedBy: string): Control {
    if c.system != Halted || approvedBy == "" then c else Save(ResumeNow(c, approvedBy))
  }

  /** Only a halted system resumes, and only with an approver: to trading, with reason and hold cleared, saved. A pause
      that has not run out stays in force. */
  lemma ResumeOutcome(c: Control, approvedBy: string)
    ensures var after := ResumeFully(c, approvedBy);
            && (c.system != Halted || approvedBy == "" ==> after == c)
            && (c.system == Halted && approvedBy != "" ==>
                  && after.system == Trading && after.haltReason == None && !after.hold
                  && after.stored == Stored(Trading, None, false)
                  && after.pauseUntil == c.pauseUntil && after.timers == c.timers
                  && (after.fsm == Sm.Active <==> c.fsm !in {Sm.Booting, Sm.WaitingForDataIntegrity, Sm.Shutdown}))
  {
  }

  datatype AlertType = FeedAlert | MismatchAlert | BusAlert | OtherAlert

  function AlertFully(c: Control, a: AlertType, reason: string): Control {
    var held := if a == OtherAlert then c else Save(c.(hold := true));
    if a == BusAlert then HaltFully(held, reason, BusFailure) else held
  }

  function WakeFully(c: Control, i: nat): Control
    requires i < |c.timers|
  {
    var asleep := c.(timers := c.timers[..i] + c.timers[i + 1..]);
    if c.timers[i].Legacy? && c.system == Paused then Save(WakeNow(asleep, c.timers[i]))
        else WakeNow(asleep, c.timers[i])
  }

  /** What the checks after a closed trade see. */
  datatype Checks = Checks(lossCap: bool, breaker: bool, velocity: bool, belowPdt: bool, pdtLimit: bool)

  /** The checks after a closed trade, in order; a later halt overrides an earlier pause. */
  function TradeControl(c: Control, k: Checks, cfg: Config, now: int): Control {
    var c1 := if k.lossCap then HaltFully(c, "daily_loss_cap", DailyLossCap) else c;
    var c2 := if k.breaker then PauseFully(c1, now, cfg.cbPause) else c1;
    var c3 := if k.velocity then PauseFully(c2, now, 300) else c2;
    var c4 := if k.belowPdt then HaltFully(c3, "account_below_pdt", BelowPdt) else c3;
    if k.pdtLimit then HaltFully(c4, "pdt_limit", PdtLimit) else c4
  }

  /** After a closed trade the system is halted exactly when it already was, the loss cap was reached or equity fell
      below the minimum; else it is paused exactly when it already was or a breaker tripped. */
  lemma TradeOutcome(c: Control, k: Checks, cfg: Config, now: int)
    ensures var after := TradeControl(c, k, cfg, now).system;
            var halted := c.system == Halted || k.lossCap || k.belowPdt || k.pdtLimit;
            && (after == Halted <==> halted)
            && (!halted ==> (after == Paused <==> c.system == Paused || k.breaker || k.velocity))
            && (!halted && after != Paused ==> TradeControl(c, k, cfg, now) == c)
  {
    hide Sm.Move, Sm.Attempt;
  }

  /** What a closed trade leaves behind: a halt that names the first check to fail and holds trading, or a pause of the
      breaker's length, and of 300 seconds when only the loss velocity tripped; and the store agrees. */
  lemma TradeLeaves(c: Control, k: Checks, cfg: Config, now: int)
    requires c.system != Halted
    ensures var after := TradeControl(c, k, cfg, now);
            && (k.lossCap ==> after.haltReason == Some("daily_loss_cap"))
            && (!k.lossCap && k.belowPdt ==> after.haltReason == Some("account_below_pdt"))
            && (!k.lossCap && !k.belowPdt && k.pdtLimit ==> after.haltReason == Some("pdt_limit"))
            && (!k.lossCap && !k.belowPdt && !k.pdtLimit ==> after.haltReason == c.haltReason && after.hold == c.hold)
            && (k.lossCap || k.belowPdt || k.pdtLimit ==> after.hold && after.stored == Memory(after))
            && (c.system != Paused && !k.lossCap && (k.breaker || k.velocity) ==>
                  var until := now + if k.breaker then cfg.cbPause else 300;
                  after.pauseUntil == Some(until) && Legacy(until) in after.timers && after.stored == Memory(after))
            && (k.lossCap ==> after.pauseUntil == c.pauseUntil && after.timers == c.timers)
  {
    hide Sm.Move, Sm.Attempt;
  }

  /** A feed anomaly, a mismatch or a bus failure holds trading, saved, and of these only a bus failure halts, as an
      anomaly of the session; any other alert changes nothing. */
  lemma AlertOutcome(c: Control, a: AlertType, reason: string)
    ensures var after := AlertFully(c, a, reason);
            && (a == OtherAlert ==> after == c)
            && (a in {FeedAlert, MismatchAlert} ==>
                  after.hold && after == c.(hold := true, stored := Stored(c.system, c.haltReason, true)))
            && (a == BusAlert ==> after.hold && after.system == Halted)
            && (a == BusAlert ==> after.stored.hold && after.stored.system == Halted)
            && (a == BusAlert && c.system != Halted ==> after.haltReason == Some(reason))
            && (a == BusAlert && c.system != Halted && c.fsm == Sm.Active ==> after.fsm == Sm.HaltedAnomaly)
            && after.pauseUntil == c.pauseUntil && after.timers == c.timers
            && forall now :: a != OtherAlert ==> !TradingAllowed(after, now)
  {
  }

  /** An alert is a run of steps ending saved. */
  lemma AlertIsHandler(c: Control, a: AlertType, reason: string)
    requires c.stored == Memory(c)
    ensures IsHandler(c, AlertFully(c, a, reason))
  {
    hide IsHandler, HaltFully;
    NothingIsHandler(c);
    if a != OtherAlert {
      HoldIsHandler(c);
      var held := Save(c.(hold := true));
      HaltIsHandler(held, reason, BusFailure);
      if a == BusAlert { HandlersCompose(c, held, HaltFully(held, reason, BusFailure)); }
    }
  }

  lemma HoldIsHandler(c: Control)
    requires c.stored == Memory(c)
    ensures IsHandler(c, Save(c.(hold := true)))
  {
    ChangeThenSave(c, Alert, c.(hold := true));
  }

  /** A run of steps of which none resumes or restarts. */
  predicate Unattended(steps: seq<Step>) {
    forall e <- steps :: !e.Resume? && !e.Restart?
  }

  /** A handler started with everything saved is a run of steps that ends with everything saved. */
  ghost predicate IsHandler(c: Control, after: Control) {
    exists steps :: Unattended(steps) && Run(World(c, 0), steps) == World(after, 0)
  }

  lemma HandlersCompose(a: Control, b: Control, c: Control)
    requires IsHandler(a, b) && IsHandler(b, c)
    ensures IsHandler(a, c)
  {
    var s :| Unattended(s) && Run(World(a, 0), s) == World(b, 0);
    var t :| Unattended(t) && Run(World(b, 0), t) == World(c, 0);
    RunAppend(World(a, 0), s, t);
    assert forall e <- s + t :: e in s || e in t;
    assert Unattended(s + t);
  }

  lemma ChangeThenSave(c: Control, e: Step, changed: Control)
    requires !e.Resume? && !e.Restart? && Next(World(c, 0), e) == Changed(World(c, 0), changed)
    ensures IsHandler(c, if Memory(c) == Memory(changed) then changed else Save(changed))
  {
    var w := World(c, 0);
    RunOne(w, e);
    if Memory(c) == Memory(changed) {
      assert Unattended([e]);
    } else {
      RunAppend(w, [e], [Persist]);
      RunOne(Run(w, [e]), Persist);
      assert Unattended([e] + [Persist]);
    }
  }

  lemma NothingIsHandler(c: Control)
    ensures IsHandler(c, c)
  {
    assert Unattended([]) && Run(World(c, 0), []) == World(c, 0);
  }

  lemma HaltIsHandler(c: Control, reason: string, b: Breach)
    ensures IsHandler(c, HaltFully(c, reason, b))
  {
    ChangeThenSave(c, Halt(reason, b), HaltNow(c, reason, b));
    NothingIsHandler(c);
  }

  lemma PauseIsHandler(c: Control, now: int, duration: int)
    ensures IsHandler(c, PauseFully(c, now, duration))
  {
    ChangeThenSave(c, Pause(now, duration), PauseNow(c, now, duration));
    NothingIsHandler(c);
  }

  /** A closed trade, whatever its checks find, is a run of steps: every result about runs applies to it. */
  lemma TradeIsHandler(c: Control, k: Checks, cfg: Config, now: int)
    ensures IsHandler(c, TradeControl(c, k, cfg, now))
  {
    hide IsHandler, HaltFully, PauseFully;
    NothingIsHandler(c);
    var c1 := if k.lossCap then HaltFully(c, "daily_loss_cap", DailyLossCap) else c;
    var c2 := if k.breaker then PauseFully(c1, now, cfg.cbPause) else c1;
    var c3 := if k.velocity then PauseFully(c2, now, 300) else c2;
    var c4 := if k.belowPdt then HaltFully(c3, "account_below_pdt", BelowPdt) else c3;
    HaltIsHandler(c, "daily_loss_cap", DailyLossCap);
    PauseIsHandler(c1, now, cfg.cbPause);
    PauseIsHandler(c2, now, 300);
    HaltIsHandler(c3, "account_below_pdt", BelowPdt);
    HaltIsHandler(c4, "pdt_limit", PdtLimit);
    if k.breaker { HandlersCompose(c, c1, c2); }
    if k.velocity { HandlersCompose(c, c2, c3); }
    if k.belowPdt { HandlersCompose(c, c3, c4); }
    if k.pdtLimit { HandlersCompose(c, c4, TradeControl(c, k, cfg, now)); }
  }

  // ---------- The daily figures feed back ----------

  /** The day's result, the equity on the books, the figures published and not yet heard back, and whether a closed
      trade is booked and not yet published: its checks may halt or pause, and then wait for the store. */
  datatype Books = Books(pnl: real, equity: real, queue: seq<(real, real)>, open: bool)

  datatype Move = BookTrade(net: real) | PublishFigures | HearFigures

  /** Trades are handled one after the other: a booking and its publish alternate. */
  predicate Enabled(b: Books, m: Move) {
    match m
    case BookTrade(_) => !b.open
    case PublishFigures => b.open
    case HearFigures => b.queue != []
  }

  function Book(b: Books, m: Move): Books {
    match m
    case BookTrade(net) => Books(b.pnl + net, b.equity, b.queue, true)
    case PublishFigures => Books(b.pnl, b.equity, b.queue + [(b.pnl, b.equity + b.pnl)], false)
    case HearFigures => if b.queue == [] then b else Books(b.queue[0].0, b.queue[0].1, b.queue[1..], b.open)
  }

  function BookAll(b: Books, moves: seq<Move>): Books {
    if moves == [] then b else Book(BookAll(b, moves[..|moves| - 1]), moves[|moves| - 1])
  }

  /** Each move is enabled where it is made. */
  predicate IsDay(b: Books, moves: seq<Move>) {
    moves != [] ==> IsDay(b, moves[..|moves| - 1]) && Enabled(BookAll(b, moves[..|moves| - 1]), moves[|moves| - 1])
  }

  /** The books once everything published is heard. */
  function Settled(b: Books): Books
    decreases |b.queue|
  {
    if b.queue == [] then b else Settled(Book(b, HearFigures))
  }

  function LatestPnl(b: Books): real {
    if b.queue != [] then b.queue[|b.queue| - 1].0 else b.pnl
  }

  lemma {:induction false} SettledIsLatest(b: Books)
    ensures Settled(b).pnl == LatestPnl(b)
    decreases |b.queue|
  {
    if b.queue != [] { SettledIsLatest(Book(b, HearFigures)); }
  }

  function NetOf(moves: seq<Move>): real {
    if moves == [] then 0.0
    else NetOf(moves[..|moves| - 1]) + if moves[|moves| - 1].BookTrade? then moves[|moves| - 1].net else 0.0
  }

  lemma BookSnoc(b: Books, moves: seq<Move>, m: Move)
    ensures BookAll(b, []) == b && NetOf([]) == 0.0 && IsDay(b, []) && !Listened([])
    ensures BookAll(b, moves + [m]) == Book(BookAll(b, moves), m)
    ensures NetOf(moves + [m]) == NetOf(moves) + if m.BookTrade? then m.net else 0.0
    ensures IsDay(b, moves + [m]) <==> IsDay(b, moves) && Enabled(BookAll(b, moves), m)
    ensures Listened(moves + [m]) <==> m == HearFigures
  {
    hide Book, Enabled;
    assert (moves + [m])[..|moves|] == moves;
  }

  /** Figures were heard since the last booking or publish. */
  predicate Listened(moves: seq<Move>) {
    moves != [] && moves[|moves| - 1] == HearFigures
  }

  /** Nothing is heard between a booking and its publish, and a trade is booked on the latest result: nothing is heard
      since that was published, or everything. A condition on the order of the moves, not on their amounts. */
  predicate Undisturbed(b: Books, moves: seq<Move>) {
    moves != [] ==>
      var init, last := moves[..|moves| - 1], moves[|moves| - 1];
      && Undisturbed(b, init)
      && (last == PublishFigures ==> !Listened(init))
      && (last.BookTrade? ==> !Listened(init) || BookAll(b, init).queue == [])
  }

  lemma UndisturbedSnoc(b: Books, moves: seq<Move>, m: Move)
    ensures Undisturbed(b, moves + [m]) <==>
            && Undisturbed(b, moves)
            && (m == PublishFigures ==> !Listened(moves))
            && (m.BookTrade? ==> !Listened(moves) || BookAll(b, moves).queue == [])
  {
    hide BookAll, Listened;
    assert (moves + [m])[..|moves|] == moves;
  }

  /** Once its figures are heard, the day's result is right whenever no trade is between its booking and its publish. */
  predicate ResultKept(b: Books, moves: seq<Move>) {
    forall i :: 0 <= i <= |moves| && !BookAll(b, moves[..i]).open ==>
      Settled(BookAll(b, moves[..i])).pnl == b.pnl + NetOf(moves[..i])
  }

  /** The same moves, whatever their amounts. */
  predicate SameOrder(a: seq<Move>, b: seq<Move>) {
    && |a| == |b|
    && forall i :: 0 <= i < |a| ==> (a[i].BookTrade? <==> b[i].BookTrade?) && (!a[i].BookTrade? ==> a[i] == b[i])
  }

  /** What holds after undisturbed moves: between a booking and its publish the booked result stands unless figures were
      heard since; with nothing heard since the last publish, or everything, the books stand at the latest result. */
  predicate Straight(b: Books, moves: seq<Move>) {
    var now, total := BookAll(b, moves), b.pnl + NetOf(moves);
    if now.open then !Listened(moves) ==> now.pnl == total
    else LatestPnl(now) == total && (!Listened(moves) ==> now.pnl == total)
  }

  lemma SnocStraight(b: Books, moves: seq<Move>, m: Move)
    requires Straight(b, moves) && Enabled(BookAll(b, moves), m)
    requires m == PublishFigures ==> !Listened(moves)
    requires m.BookTrade? ==> !Listened(moves) || BookAll(b, moves).queue == []
    ensures Straight(b, moves + [m])
  {
    hide BookAll, NetOf, Listened;
    BookSnoc(b, moves, m);
  }

  lemma {:induction false} UndisturbedStraight(b: Books, moves: seq<Move>)
    requires b.queue == [] && !b.open && IsDay(b, moves) && Undisturbed(b, moves)
    ensures Straight(b, moves)
  {
    if moves == [] {
      BookSnoc(b, [], HearFigures);
    } else {
      var init, last := moves[..|moves| - 1], moves[|moves| - 1];
      assert moves == init + [last];
      hide Straight, BookAll, Enabled;
      UndisturbedStraight(b, init);
      SnocStraight(b, init, last);
    }
  }

  lemma {:induction false} UndisturbedBefore(b: Books, moves: seq<Move>, i: nat)
    requires i <= |moves| && IsDay(b, moves) && Undisturbed(b, moves)
    ensures IsDay(b, moves[..i]) && Undisturbed(b, moves[..i])
    decreases |moves|
  {
    hide BookAll, Enabled, Listened;
    if i < |moves| {
      assert moves[..|moves| - 1][..i] == moves[..i];
      UndisturbedBefore(b, moves[..|moves| - 1], i);
    } else {
      assert moves[..i] == moves;
    }
  }

  /** In an undisturbed day the result loses no trade, whatever the amounts. */
  lemma UndisturbedKept(b: Books, moves: seq<Move>)
    requires b.queue == [] && !b.open && IsDay(b, moves) && Undisturbed(b, moves)
    ensures ResultKept(b, moves)
  {
    hide BookAll, NetOf, Settled, LatestPnl, IsDay, Undisturbed, Listened;
    forall i | 0 <= i <= |moves| && !BookAll(b, moves[..i]).open
      ensures Settled(BookAll(b, moves[..i])).pnl == b.pnl + NetOf(moves[..i])
    {
      UndisturbedBefore(b, moves, i);
      UndisturbedStraight(b, moves[..i]);
      SettledIsLatest(BookAll(b, moves[..i]));
    }
  }

  // ----- where gains are booked, every disturbance shows -----

  predicate Gains(moves: seq<Move>) {
    forall m <- moves :: m.BookTrade? ==> m.net > 0.0
  }

  /** The queued results rise, and stay below a total. */
  predicate RisesBelow(queue: seq<(real, real)>, total: real) {
    && (forall i, j :: 0 <= i < j < |queue| ==> queue[i].0 < queue[j].0)
    && (forall i :: 0 <= i < |queue| ==> queue[i].0 < total)
  }

  /** An undisturbed day of gains: a heard result is older, and so lower, than those still queued and than the total. */
  predicate Climbs(now: Books, listened: bool, total: real) {
    && (if now.open then RisesBelow(now.queue, total)
        else RisesBelow(now.queue, total + 1.0) && LatestPnl(now) == total)
    && (!listened ==> now.pnl == total)
    && (listened && now.queue != [] ==> now.pnl < now.queue[0].0)
    && (listened && now.open ==> now.pnl < total)
  }

  lemma SnocClimbs(now: Books, listened: bool, total: real, m: Move)
    requires Climbs(now, listened, total) && Enabled(now, m) && (m.BookTrade? ==> m.net > 0.0)
    requires m == PublishFigures ==> !listened
    requires m.BookTrade? ==> !listened || now.queue == []
    ensures Climbs(Book(now, m), m == HearFigures, total + if m.BookTrade? then m.net else 0.0)
  {
    match m
    case BookTrade(net) =>
    case PublishFigures => assert !listened && now.pnl == total;
    case HearFigures => assert now.queue != [];
  }

  lemma DaySnocClimbs(b: Books, moves: seq<Move>, m: Move)
    requires Climbs(BookAll(b, moves), Listened(moves), b.pnl + NetOf(moves)) && (m.BookTrade? ==> m.net > 0.0)
    requires IsDay(b, moves + [m]) && Undisturbed(b, moves + [m])
    ensures Climbs(BookAll(b, moves + [m]), Listened(moves + [m]), b.pnl + NetOf(moves + [m]))
  {
    hide Climbs, Book, Enabled, BookAll, NetOf, IsDay, Undisturbed, Listened;
    BookSnoc(b, moves, m);
    UndisturbedSnoc(b, moves, m);
    SnocClimbs(BookAll(b, moves), Listened(moves), b.pnl + NetOf(moves), m);
    assert b.pnl + NetOf(moves + [m]) == b.pnl + NetOf(moves) + if m.BookTrade? then m.net else 0.0;
  }

  lemma {:induction false} DayClimbs(b: Books, moves: seq<Move>)
    requires b.queue == [] && !b.open && IsDay(b, moves) && Undisturbed(b, moves) && Gains(moves)
    ensures Climbs(BookAll(b, moves), Listened(moves), b.pnl + NetOf(moves))
  {
    hide *;
    if moves == [] {
      DayStarts(b);
    } else {
      var init, last := moves[..|moves| - 1], moves[|moves| - 1];
      assert moves == init + [last];
      DayBefore(b, init, last);
      DayClimbs(b, init);
      DaySnocClimbs(b, init, last);
    }
  }

  lemma DayStarts(b: Books)
    requires b.queue == [] && !b.open
    ensures Climbs(BookAll(b, []), Listened([]), b.pnl + NetOf([]))
  {
  }

  lemma DayBefore(b: Books, moves: seq<Move>, m: Move)
    requires IsDay(b, moves + [m]) && Undisturbed(b, moves + [m]) && Gains(moves + [m])
    ensures IsDay(b, moves) && Undisturbed(b, moves) && Gains(moves) && (m.BookTrade? ==> m.net > 0.0)
  {
    hide BookAll, NetOf, IsDay, Undisturbed, Listened, Enabled, Book;
    BookSnoc(b, moves, m);
    UndisturbedSnoc(b, moves, m);
    assert m in moves + [m] && forall n <- moves :: n in moves + [m];
  }

  /** A trade between its booking and its publish, with too little on the books to be published. */
  predicate Short(now: Books, total: real) {
    now.open && now.pnl < total && forall i :: 0 <= i < |now.queue| ==> now.queue[i].0 < total
  }

  /** Whatever is heard until then, too little is published. */
  lemma {:induction false} ShortFails(b: Books, moves: seq<Move>, i: nat)
    requires i <= |moves| && IsDay(b, moves) && !BookAll(b, moves).open
    requires Short(BookAll(b, moves[..i]), b.pnl + NetOf(moves[..i]))
    ensures !ResultKept(b, moves)
    decreases |moves| - i
  {
    assert moves[..|moves|] == moves;
    if i < |moves| {
      DayAt(b, moves, i);
      BookSnoc(b, moves[..i], moves[i]);
      assert moves[..i + 1] == moves[..i] + [moves[i]];
      var now := BookAll(b, moves[..i + 1]);
      if moves[i] == HearFigures {
        ShortFails(b, moves, i + 1);
      } else {
        assert !now.open && LatestPnl(now) < b.pnl + NetOf(moves[..i + 1]);
        SettledIsLatest(now);
      }
    }
  }

  lemma {:induction false} DayAt(b: Books, moves: seq<Move>, i: nat)
    requires i < |moves| && IsDay(b, moves)
    ensures IsDay(b, moves[..i]) && Enabled(BookAll(b, moves[..i]), moves[i])
    decreases |moves|
  {
    hide BookAll, Enabled;
    var init := moves[..|moves| - 1];
    if i < |init| {
      assert init[..i] == moves[..i] && init[i] == moves[i];
      DayAt(b, init, i);
    } else {
      assert moves[..i] == init;
    }
  }

  lemma {:induction false} FirstDisturbance(b: Books, moves: seq<Move>) returns (i: nat)
    requires !Undisturbed(b, moves)
    ensures i < |moves| && Undisturbed(b, moves[..i])
    ensures if moves[i] == PublishFigures then Listened(moves[..i])
            else moves[i].BookTrade? && Listened(moves[..i]) && BookAll(b, moves[..i]).queue != []
    decreases |moves|
  {
    hide BookAll, Listened;
    var init := moves[..|moves| - 1];
    if Undisturbed(b, init) {
      i := |init|;
      assert moves[..i] == init;
    } else {
      i := FirstDisturbance(b, init);
      assert init[..i] == moves[..i] && init[i] == moves[i];
    }
  }

  lemma DisturbedFails(b: Books, moves: seq<Move>)
    requires b.queue == [] && !b.open && IsDay(b, moves) && !BookAll(b, moves).open && Gains(moves)
    requires !Undisturbed(b, moves)
    ensures !ResultKept(b, moves)
  {
    hide BookAll, IsDay, Undisturbed, NetOf, ResultKept, Listened;
    var i := FirstDisturbance(b, moves);
    DayAt(b, moves, i);
    assert forall m <- moves[..i] :: m in moves;
    DayClimbs(b, moves[..i]);
    var now := BookAll(b, moves[..i]);
    if moves[i] == PublishFigures {
      ShortFails(b, moves, i);
    } else {
      assert moves[i] in moves;
      BookSnoc(b, moves[..i], moves[i]);
      assert moves[..i + 1] == moves[..i] + [moves[i]];
      assert now.queue[0].0 <= LatestPnl(now);
      ShortFails(b, moves, i + 1);
    }
  }

  /** A day of gains, every one published in the end, loses no trade from the day's result if and only if it is
      undisturbed. */
  lemma ResultKeptIff(b: Books, moves: seq<Move>)
    requires b.queue == [] && !b.open && IsDay(b, moves) && !BookAll(b, moves).open && Gains(moves)
    ensures ResultKept(b, moves) <==> Undisturbed(b, moves)
  {
    hide BookAll, IsDay, Undisturbed, ResultKept;
    if Undisturbed(b, moves) { UndisturbedKept(b, moves); } else { DisturbedFails(b, moves); }
  }

  // ----- whatever the amounts -----

  /** The same moves with a gain of one for every trade. */
  function Ones(moves: seq<Move>): (ones: seq<Move>)
    ensures SameOrder(moves, ones) && Gains(ones)
  {
    seq(|moves|, i requires 0 <= i < |moves| => if moves[i].BookTrade? then BookTrade(1.0) else moves[i])
  }

  /** What may be done, what waits to be heard, and what is undisturbed depend on the order alone. */
  lemma {:induction false} OrderDecides(b: Books, moves: seq<Move>, others: seq<Move>)
    requires SameOrder(moves, others)
    ensures BookAll(b, moves).open == BookAll(b, others).open && |BookAll(b, moves).queue| == |BookAll(b, others).queue|
    ensures Listened(moves) <==> Listened(others)
    ensures (IsDay(b, moves) <==> IsDay(b, others)) && (Undisturbed(b, moves) <==> Undisturbed(b, others))
    decreases |moves|
  {
    if moves != [] { OrderDecides(b, moves[..|moves| - 1], others[..|others| - 1]); }
  }

  /** An order of bookings, publishes and hearings keeps the day's result right for every amounts, losses and gains
      alike, if and only if nothing is heard between a booking and its publish and every trade is booked on the latest
      result. */
  lemma OrderKeepsResultIff(b: Books, moves: seq<Move>)
    requires b.queue == [] && !b.open && IsDay(b, moves) && !BookAll(b, moves).open
    ensures Undisturbed(b, moves) <==> forall others :: SameOrder(moves, others) ==> ResultKept(b, others)
  {
    hide BookAll, IsDay, Undisturbed, ResultKept, Gains, SameOrder;
    if Undisturbed(b, moves) {
      forall others | SameOrder(moves, others) ensures ResultKept(b, others) {
        OrderDecides(b, moves, others);
        UndisturbedKept(b, others);
      }
    } else {
      OrderDecides(b, moves, Ones(moves));
      DisturbedFails(b, Ones(moves));
    }
  }

  /** Booked on an older result: the figures of a first loss, heard after a second one, take the second out of the
      sum. */
  lemma ResultCanLoseATrade(equity: real)
    ensures var moves := [BookTrade(-10.0), PublishFigures, BookTrade(-20.0), PublishFigures, HearFigures]
                         + [BookTrade(-5.0), PublishFigures];
            Settled(BookAll(Books(0.0, equity, [], false), moves)).pnl == -15.0 && NetOf(moves) == -35.0
  {
    hide BookAll, NetOf, Settled, IsDay, Listened;
    var b, h := Books(0.0, equity, [], false), [BookTrade(-10.0), PublishFigures];
    var p, q, l := (-10.0, equity - 10.0), (-30.0, equity - 30.0), (-15.0, equity - 25.0);
    TradeAndPublish(b, [], -10.0);
    assert [] + h == h && [] + [p] == [p];
    TradeAndPublish(b, h, -20.0);
    var four := h + [BookTrade(-20.0), PublishFigures];
    assert [p] + [q] == [p, q] && [p, q][1..] == [q];
    BookSnoc(b, four, HearFigures);
    TradeAndPublish(b, four + [HearFigures], -5.0);
    assert [q] + [l] == [q, l];
    assert four + [HearFigures] == [BookTrade(-10.0), PublishFigures, BookTrade(-20.0), PublishFigures, HearFigures];
    SettledIsLatest(Books(-15.0, equity - 10.0, [q, l], false));
  }

  /** Heard before the publish: a first loss's figures, heard while the second one's pause is saved, are published
      again. */
  lemma SaveCanLoseATrade(equity: real)
    ensures var moves := [BookTrade(-10.0), PublishFigures] + [BookTrade(-290.0)] + [HearFigures] + [PublishFigures];
            Settled(BookAll(Books(0.0, equity, [], false), moves)).pnl == -10.0 && NetOf(moves) == -300.0
  {
    hide BookAll, NetOf, Settled, IsDay, Listened;
    var b, h, p, l := Books(0.0, equity, [], false), [BookTrade(-10.0), PublishFigures], (-10.0, equity - 10.0),
        (-10.0, equity - 20.0);
    TradeAndPublish(b, [], -10.0);
    assert [] + h == h && [] + [p] == [p];
    BookSnoc(b, h, BookTrade(-290.0));
    BookSnoc(b, h + [BookTrade(-290.0)], HearFigures);
    var rest: seq<(real, real)> := [p];
    assert rest[1..] == [];
    BookSnoc(b, h + [BookTrade(-290.0)] + [HearFigures], PublishFigures);
    assert [] + [l] == [l];
    SettledIsLatest(Books(-10.0, equity - 10.0, [l], false));
  }

  lemma TradeAndPublish(b: Books, moves: seq<Move>, net: real)
    ensures var before := BookAll(b, moves);
            var pnl := before.pnl + net;
            BookAll(b, moves + [BookTrade(net), PublishFigures])
            == Books(pnl, before.equity, before.queue + [(pnl, before.equity + pnl)], false)
    ensures NetOf(moves + [BookTrade(net), PublishFigures]) == NetOf(moves) + net
    ensures BookAll(b, []) == b && NetOf([]) == 0.0
  {
    hide BookAll, NetOf, IsDay, Listened;
    BookSnoc(b, moves, BookTrade(net));
    BookSnoc(b, moves + [BookTrade(net)], PublishFigures);
    assert moves + [BookTrade(net)] + [PublishFigures] == moves + [BookTrade(net), PublishFigures];
  }

  // ----- the equity drifts -----

  /** Each trade's figures are heard before the next trade. */
  function Prompt(nets: seq<real>): seq<Move> {
    if nets == [] then []
    else Prompt(nets[..|nets| - 1]) + [BookTrade(nets[|nets| - 1]), PublishFigures] + [HearFigures]
  }

  function Total(nets: seq<real>): real {
    if nets == [] then 0.0 else Total(nets[..|nets| - 1]) + nets[|nets| - 1]
  }

  /** The running totals of the day, added up. */
  function Drift(nets: seq<real>): real {
    if nets == [] then 0.0 else Drift(nets[..|nets| - 1]) + Total(nets)
  }

  /** Even when every figure is heard at once, each one adds the whole day's result to the equity again. */
  lemma {:induction false} EchoCountsTwice(equity: real, nets: seq<real>)
    ensures BookAll(Books(0.0, equity, [], false), Prompt(nets)) == Books(Total(nets), equity + Drift(nets), [], false)
  {
    hide BookAll, NetOf, IsDay, Listened;
    var b := Books(0.0, equity, [], false);
    if nets == [] {
      BookSnoc(b, [], HearFigures);
    } else {
      var init, last := nets[..|nets| - 1], nets[|nets| - 1];
      EchoCountsTwice(equity, init);
      TradeAndPublish(b, Prompt(init), last);
      BookSnoc(b, Prompt(init) + [BookTrade(last), PublishFigures], HearFigures);
    }
  }

  predicate BelowMinimum(b: Books, minimum: real) {
    b.equity + b.pnl < minimum
  }

  /** The equity check after the next booking judges by the account's equity plus the drift: it decides wrongly if and
      only if the minimum lies between the two. */
  lemma MisjudgedIff(equity: real, nets: seq<real>, next: real, minimum: real)
    ensures var b := BookAll(Books(0.0, equity, [], false), Prompt(nets) + [BookTrade(next)]);
            var account := equity + Total(nets) + next;
            BelowMinimum(b, minimum) != (account < minimum)
            <==> Min(account, account + Drift(nets)) < minimum <= Max(account, account + Drift(nets))
  {
    hide BookAll;
    EchoCountsTwice(equity, nets);
    BookSnoc(Books(0.0, equity, [], false), Prompt(nets), BookTrade(next));
  }

  /** A loss of 200 and a gain of 50 on 25300 leave 25150, and the system halts for less than 25000. */
  lemma EchoHaltsWrongly(c: Control, k: Checks, cfg: Config, now: int)
    requires k.belowPdt == BelowMinimum(
      BookAll(Books(0.0, 25300.0, [], false), [BookTrade(-200.0),
          PublishFigures] + [HearFigures] + [BookTrade(50.0)]), 25000.0)
    ensures 25300.0 + NetOf([BookTrade(-200.0), PublishFigures] + [HearFigures] + [BookTrade(50.0)]) == 25150.0
    ensures TradeControl(c, k, cfg, now).system == Halted
  {
    hide BookAll, NetOf, IsDay, Listened;
    var b, h := Books(0.0, 25300.0, [], false), [BookTrade(-200.0), PublishFigures];
    TradeAndPublish(b, [], -200.0);
    assert [] + h == h;
    BookSnoc(b, h, HearFigures);
    BookSnoc(b, h + [HearFigures], BookTrade(50.0));
    TradeOutcome(c, k, cfg, now);
  }

  // ---------- The supervisor ----------

  class PortfolioSupervisor {
    const cfg: Config
    const machine: Sm.Machine
    var system: System
    var haltReason: Option<string>
    var hold: bool
    var pauseUntil: Option<int>
    var stored: Stored
    var timers: seq<Timer>
    var dailyPnl: real
    var equity: real
    var openPositions: int
    var consecutiveLosses: int
    var trades: int
    var stopouts: seq<int>
    var recentLosses: seq<Loss>
    var figures: seq<(real, real)>
    ghost var open: bool
    ghost var losses: seq<Loss>

    ghost function Figures(): Books
      reads this
    {
      Books(dailyPnl, equity, figures, open)
    }

    /** The stored state is the one in memory, and the bounded windows are the tails of every loss so far. */
    ghost predicate Valid()
      reads this, machine
    {
      && machine.Valid()
      && stored == Memory(State())
      && (system == Halted ==> hold)
      && openPositions >= 0
      && stopouts == Kept(ClosedAt(losses), 20)
      && recentLosses == Kept(losses, 100)
      && (forall l <- losses :: l.amount >= 0.0)
    }

    ghost function State(): Control
      reads this, machine
    {
      Control(system, haltReason, hold, pauseUntil, machine.state, stored, timers)
    }

    /** A new process: the stored state and hold come back, nothing else does. */
    constructor (cfg: Config, stored: Stored, equity: real)
      requires stored.system == Halted ==> stored.hold
      ensures Valid() && fresh(machine) && this.cfg == cfg
      ensures State() == Startup(stored) && this.equity == equity && losses == []
          && Figures() == Books(0.0, equity, [], false) && trades == 0
    {
      this.cfg := cfg;
      var m := new Sm.Machine();
      machine := m;
      system, haltReason, hold, pauseUntil := stored.system, stored.haltReason, stored.hold, None;
      this.stored, timers, dailyPnl, this.equity := stored, [], 0.0, equity;
      openPositions, consecutiveLosses, trades, stopouts, recentLosses, losses := 0, 0, 0, [], [], [];
      figures, open := [], false;
      new;
      var _ := machine.TransitionTo(Sm.WaitingForDataIntegrity, "boot complete", "");
    }

    method HaltSystem(reason: string, b: Breach)
      requires Valid()
      modifies this`system, this`haltReason, this`hold, this`stored, machine
      ensures Valid() && State() == old(HaltFully(State(), reason, b))
    {
      hide Sm.Permitted, Kept, ClosedAt, Sm.Life;
      if system == Halted { return; }
      system, haltReason, hold := Halted, Some(reason), true;
      var _ := machine.TransitionTo(HaltTarget(b), reason, "");
      stored := Stored(system, haltReason, hold);
    }

    method PauseSystem(reason: string, now: int, duration: int)
      requires Valid()
      modifies this`system, this`pauseUntil, this`stored, this`timers, machine
      ensures Valid() && State() == old(PauseFully(State(), now, duration))
    {
      hide Sm.Permitted, Kept, ClosedAt, Sm.Life;
      if system == Halted || system == Paused { return; }
      system, pauseUntil := Paused, Some(now + duration);
      var outcome := machine.TransitionTo(Sm.PausedCooldown, reason, "");
      if outcome == Sm.NoOp || outcome == Sm.Moved { timers := timers + [Fsm(now + duration)]; }
      stored := Stored(system, haltReason, hold);
      timers := timers + [Legacy(now + duration)];
    }

    /** A resume command; one without an approver is ignored. */
    method HandleResume(approvedBy: string)
      requires Valid()
      modifies this`system, this`haltReason, this`hold, this`stored, machine
      ensures Valid() && State() == old(ResumeFully(State(), approvedBy))
    {
      hide Sm.Permitted, Kept, ClosedAt, Sm.Life;
      if approvedBy == "" || system != Halted { return; }
      system, haltReason, hold := Trading, None, false;
      var _ := machine.TransitionTo(Sm.Active, "Human clearance", approvedBy);
      stored := Stored(system, haltReason, hold);
    }

    method HandleAlert(a: AlertType, reason: string)
      requires Valid()
      modifies this`system, this`haltReason, this`hold, this`stored, machine
      ensures Valid() && State() == old(AlertFully(State(), a, reason))
      ensures a != OtherAlert ==> hold
    {
      hide Sm.Permitted, Kept, ClosedAt, Sm.Life;
      if a != OtherAlert {
        hold := true;
        stored := Stored(system, haltReason, hold);
      }
      if a == BusAlert { HaltSystem(reason, BusFailure); }
    }

    /** An auto-resume task wakes up. */
    method WakeTimer(i: nat)
      requires Valid() && i < |timers|
      modifies this`system, this`pauseUntil, this`stored, this`timers, machine
      ensures Valid() && State() == old(WakeFully(State(), i))
    {
      hide Sm.Permitted, Kept, ClosedAt, Sm.Life;
      var t := timers[i];
      timers := timers[..i] + timers[i + 1..];
      match t
      case Legacy(_) =>
        if system == Paused {
          system, pauseUntil := Trading, None;
          stored := Stored(system, haltReason, hold);
        }
      case Fsm(_) =>
        if machine.state == Sm.PausedCooldown { var _ := machine.TransitionTo(Sm.Active, "Auto-resume", ""); }
    }

    method OnSessionStart()
      requires Valid()
      modifies machine
      ensures Valid() && State() == old(SessionStartNow(State()))
    {
      hide Sm.Permitted, Kept, ClosedAt, Sm.Life;
      if machine.state == Sm.WaitingForRegime { var _ := machine.TransitionTo(Sm.Active,
          "Regime assessment complete", ""); }
    }

    method CheckLossCap()
      requires Valid()
      modifies this`system, this`haltReason, this`hold, this`stored, machine
      ensures Valid()
      ensures State() == old(if dailyPnl <= -(equity * cfg.lossCapPct)
          then HaltFully(State(), "daily_loss_cap", DailyLossCap) else State())
    {
      if dailyPnl <= -(equity * cfg.lossCapPct) { HaltSystem("daily_loss_cap", DailyLossCap); }
    }

    method CheckBreakers(now: int)
      requires Valid()
      modifies this`system, this`pauseUntil, this`stored, this`timers, machine
      ensures Valid()
      ensures State() == old(
        var c := if CountSince(stopouts, now - cfg.cbWindow) >= cfg.cbThreshold
            then PauseFully(State(), now, cfg.cbPause) else State();
        if LostSince(recentLosses, now - cfg.velWindow) >= cfg.velThreshold then PauseFully(c, now, 300) else c)
    {
      hide Sm.Permitted, Kept, ClosedAt, Sm.Life, PauseFully;
      if CountSince(stopouts, now - cfg.cbWindow) >= cfg.cbThreshold {
        PauseSystem("Circuit breaker", now, cfg.cbPause);
      }
      if LostSince(recentLosses, now - cfg.velWindow) >= cfg.velThreshold {
        PauseSystem("Drawdown velocity", now, 300);
      }
    }

    method CheckPdtLimit()
      requires Valid()
      modifies this`system, this`haltReason, this`hold, this`stored, machine
      ensures Valid()
      ensures State() == old(
        var below := equity + dailyPnl < cfg.pdtMinimum;
        var c := if below then HaltFully(State(), "account_below_pdt", BelowPdt) else State();
        if trades >= 3 && below then HaltFully(c, "pdt_limit", PdtLimit) else c)
    {
      hide Sm.Permitted, Kept, ClosedAt, Sm.Life, HaltFully;
      var below := equity + dailyPnl < cfg.pdtMinimum;
      if below { HaltSystem("account_below_pdt", BelowPdt); }
      if trades >= 3 && below { HaltSystem("pdt_limit", PdtLimit); }
    }

    /** What the checks find. */
    ghost function Found(now: int): Checks
      reads this
    {
      var below := BelowMinimum(Figures(), cfg.pdtMinimum);
      Checks(dailyPnl <= -(equity * cfg.lossCapPct),
             CountSince(stopouts, now - cfg.cbWindow) >= cfg.cbThreshold,
             LostSince(recentLosses, now - cfg.velWindow) >= cfg.velThreshold, below, trades >= 3 && below)
    }

    /** With a clock that does not go back, the bounded windows find what every loss of the session would. */
    lemma FoundIsComplete(now: int)
      requires Valid() && InOrder(ClosedAt(losses))
      ensures cfg.cbThreshold <= 20 ==>
                (Found(now).breaker <==> CountSince(ClosedAt(losses), now - cfg.cbWindow) >= cfg.cbThreshold)
      ensures CountSince(ClosedAt(losses), now - cfg.velWindow) <= 100 ==>
                (Found(now).velocity <==> LostSince(losses, now - cfg.velWindow) >= cfg.velThreshold)
    {
      hide Kept, CountSince, LostSince, ClosedAt, Sm.Life;
      if cfg.cbThreshold <= STOPOUTS_KEPT {
        KeptStopoutsSuffice(ClosedAt(losses), now - cfg.cbWindow, STOPOUTS_KEPT, cfg.cbThreshold);
      }
      KeptLossesSuffice(losses, now - cfg.velWindow, LOSSES_KEPT);
    }

    method Enter(now: int, netPnl: real)
      requires Valid()
      modifies this`openPositions, this`dailyPnl, this`consecutiveLosses, this`trades, this`stopouts
      modifies this`recentLosses, this`losses, this`open
      ensures Valid() && State() == old(State())
      ensures losses == if netPnl > 0.0 then old(losses) else old(losses) + [Loss(now, -netPnl)]
      ensures open && dailyPnl == old(dailyPnl) + netPnl && trades == old(trades) + 1
      ensures openPositions == (if old(openPositions) > 0 then old(openPositions) - 1 else 0)
      ensures consecutiveLosses == if netPnl > 0.0 then 0 else old(consecutiveLosses) + 1
    {
      hide Sm.Permitted, Sm.Life, Kept, Pushed, ClosedAt;
      openPositions := if openPositions > 0 then openPositions - 1 else 0;
      dailyPnl := dailyPnl + netPnl;
      if netPnl > 0.0 {
        consecutiveLosses := 0;
      } else {
        consecutiveLosses := consecutiveLosses + 1;
        var loss := Loss(now, -netPnl);
        ClosedAtGrows(losses, loss);
        KeptGrows(ClosedAt(losses), now, STOPOUTS_KEPT);
        KeptGrows(losses, loss, LOSSES_KEPT);
        stopouts := Pushed(stopouts, now, STOPOUTS_KEPT);
        recentLosses := Pushed(recentLosses, loss, LOSSES_KEPT);
        losses := losses + [loss];
      }
      trades, open := trades + 1, true;
    }

    /** A closed trade up to its publish: it is booked, then checked. */
    method BookAndCheck(now: int, netPnl: real)
      requires Valid() && !open
      modifies this, machine
      ensures Valid()
      ensures losses == if netPnl > 0.0 then old(losses) else old(losses) + [Loss(now, -netPnl)]
      ensures Figures() == Book(old(Figures()), BookTrade(netPnl)) && trades == old(trades) + 1
      ensures dailyPnl == old(dailyPnl) + netPnl && equity == old(equity) && figures == old(figures)
      ensures openPositions == (if old(openPositions) > 0 then old(openPositions) - 1 else 0)
      ensures consecutiveLosses == if netPnl > 0.0 then 0 else old(consecutiveLosses) + 1
      ensures State() == TradeControl(old(State()), Found(now), cfg, now)
      ensures system == Halted
              <==> old(system) == Halted || dailyPnl <= -(equity * cfg.lossCapPct) || equity + dailyPnl < cfg.pdtMinimum
      ensures system != Halted ==>
                (system == Paused
                 <==> old(system) == Paused || CountSince(stopouts, now - cfg.cbWindow) >= cfg.cbThreshold
                      || LostSince(recentLosses, now - cfg.velWindow) >= cfg.velThreshold)
    {
      hide Valid, HaltFully, PauseFully, CountSince, LostSince;
      Enter(now, netPnl);
      CheckLossCap();
      CheckBreakers(now);
      CheckPdtLimit();
      TradeOutcome(old(State()), Found(now), cfg, now);
    }

    /** The rest of it: the figures are published as they stand by then. */
    method Publish(now: int)
      requires Valid() && open
      modifies this`figures, this`open
      ensures Valid() && State() == old(State()) && Found(now) == old(Found(now))
      ensures Figures() == Book(old(Figures()), PublishFigures)
      ensures figures == old(figures) + [(dailyPnl, equity + dailyPnl)]
      ensures dailyPnl == old(dailyPnl) && equity == old(equity)
    {
      hide CountSince, LostSince, Kept, ClosedAt, Sm.Life, Sm.Permitted;
      figures, open := figures + [(dailyPnl, equity + dailyPnl)], false;
    }

    /** A closed trade that nothing interrupts. */
    method HandleTradeClosed(now: int, netPnl: real)
      requires Valid() && !open
      modifies this, machine
      ensures Valid()
      ensures losses == if netPnl > 0.0 then old(losses) else old(losses) + [Loss(now, -netPnl)]
      ensures Figures() == Book(Book(old(Figures()), BookTrade(netPnl)), PublishFigures) && trades == old(trades) + 1
      ensures dailyPnl == old(dailyPnl) + netPnl && equity == old(equity)
      ensures figures == old(figures) + [(dailyPnl, equity + dailyPnl)]
      ensures openPositions == (if old(openPositions) > 0 then old(openPositions) - 1 else 0)
      ensures consecutiveLosses == if netPnl > 0.0 then 0 else old(consecutiveLosses) + 1
      ensures State() == TradeControl(old(State()), Found(now), cfg, now)
      ensures system == Halted
              <==> old(system) == Halted || dailyPnl <= -(equity * cfg.lossCapPct) || equity + dailyPnl < cfg.pdtMinimum
      ensures system != Halted ==>
                (system == Paused
                 <==> old(system) == Paused || CountSince(stopouts, now - cfg.cbWindow) >= cfg.cbThreshold
                      || LostSince(recentLosses, now - cfg.velWindow) >= cfg.velThreshold)
    {
      hide Valid, State, Found, TradeControl;
      BookAndCheck(now, netPnl);
      Publish(now);
    }

    /** The oldest of the published figures comes back. */
    method HearOwnFigures()
      requires Valid() && figures != []
      modifies this, machine
      ensures Valid() && losses == old(losses)
      ensures Figures() == Book(old(Figures()), HearFigures)
      ensures dailyPnl == old(figures[0].0) && equity == old(figures[0].1) && figures == old(figures[1..])
      ensures State() == if dailyPnl <= -(equity * cfg.lossCapPct)
          then HaltFully(old(State()), "daily_loss_cap", DailyLossCap) else old(State())
    {
      hide HaltFully, Sm.Life;
      var heard := figures[0];
      TakeFigures();
      HandleDailyPnl(Some(heard.0), Some(heard.1));
    }

    method TakeFigures()
      requires Valid() && figures != []
      modifies this`figures
      ensures Valid() && State() == old(State()) && figures == old(figures)[1..]
    {
      figures := figures[1..];
    }

    method HandleDailyPnl(pnl: Option<real>, accountEquity: Option<real>)
      requires Valid()
      modifies this`dailyPnl, this`equity, this`system, this`haltReason, this`hold, this`stored, machine
      ensures Valid() && losses == old(losses)
      ensures dailyPnl == (if pnl.Some? then pnl.value else old(dailyPnl))
      ensures equity == (if accountEquity.Some? then accountEquity.value else old(equity))
      ensures State() == if dailyPnl <= -(equity * cfg.lossCapPct)
          then HaltFully(old(State()), "daily_loss_cap", DailyLossCap) else old(State())
    {
      hide Sm.Permitted, Sm.Life, Kept, ClosedAt, HaltFully;
      if pnl.Some? { dailyPnl := pnl.value; }
      if accountEquity.Some? { equity := accountEquity.value; }
      CheckLossCap();
    }

    method IsTradingAllowed(now: int) returns (allowed: bool)
      requires Valid()
      ensures allowed <==> TradingAllowed(State(), now)
      ensures system == Halted ==> !allowed
    {
      if machine.state != Sm.Active { return false; }
      if hold { return false; }
      if pauseUntil.Some? && now < pauseUntil.value { return false; }
      return true;
    }
  }

  lemma ClosedAtGrows(log: seq<Loss>, l: Loss)
    ensures ClosedAt(log + [l]) == ClosedAt(log) + [l.at]
  {
    assert (log + [l])[..|log|] == log;
  }
}

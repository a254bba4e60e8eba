/** Halt authority: what the supervisor remembers, what it has stored, and every step that changes either.
    A step is the code between two awaits, so handlers, timers and crashes may interleave in any order. */
module SupervisorModel {
  import opened Text
  import opened SessionStateMachine

  datatype System =
    | Initializing | ShadowMode | PreSession | SessionOpen | Trading | Paused | Halted | PostSession | Stopped

  datatype Stored = Stored(system: System, haltReason: Option<string>, hold: bool)

  /** A sleeping auto-resume task: the supervisor's own, or the session machine's. */
  datatype Timer = Legacy(due: int) | Fsm(due: int)

  datatype Control = Control(system: System, haltReason: Option<string>, hold: bool, pauseUntil: Option<int>,
                             fsm: Session, stored: Stored, timers: seq<Timer>)

  datatype Breach = ReconciliationMismatch | FeedAnomaly | BusFailure | KillSwitch | DailyLossCap | BelowPdt | PdtLimit

  function HaltTarget(b: Breach): Session {
    match b
    case ReconciliationMismatch => HaltedReconciliation
    case FeedAnomaly | BusFailure => HaltedAnomaly
    case _ => HaltedRisk
  }

  // ---------- What each handler does up to its first await ----------

  function HaltNow(c: Control, reason: string, b: Breach): Control {
    if c.system == Halted then c
    else c.(system := Halted, haltReason := Some(reason), hold := true, fsm := Move(c.fsm, HaltTarget(b), ""))
  }

  /** A refused session transition raises, so only the supervisor's own timer is armed then. */
  function PauseNow(c: Control, now: int, duration: int): Control {
    if c.system == Halted || c.system == Paused then c
    else
      var armed := if Attempt(c.fsm, PausedCooldown, "") in {NoOp, Moved} then [Fsm(now + duration)] else [];
      c.(system := Paused, pauseUntil := Some(now + duration), fsm := Move(c.fsm, PausedCooldown, ""),
         timers := c.timers + armed + [Legacy(now + duration)])
  }

  function ResumeNow(c: Control, approvedBy: string): Control {
    if c.system != Halted || approvedBy == "" then c
    else c.(system := Trading, haltReason := None, hold := false, fsm := Move(c.fsm, Active, approvedBy))
  }

  function WakeNow(c: Control, t: Timer): Control {
    match t
    case Legacy(_) => if c.system == Paused then c.(system := Trading, pauseUntil := None) else c
    case Fsm(_) => if c.fsm == PausedCooldown then c.(fsm := Move(c.fsm, Active, "")) else c
  }

  function SessionStartNow(c: Control): Control {
    if c.fsm == WaitingForRegime then c.(fsm := Move(c.fsm, Active, "")) else c
  }

  function Memory(c: Control): Stored {
    Stored(c.system, c.haltReason, c.hold)
  }

  function Save(c: Control): Control {
    c.(stored := Memory(c))
  }

  /** A new process reads the stored state; its session machine has just booted. */
  function Startup(stored: Stored): Control {
    Control(stored.system, stored.haltReason, stored.hold, None, Move(Booting, WaitingForDataIntegrity, ""), stored, [])
  }

  predicate TradingAllowed(c: Control, now: int) {
    c.fsm == Active && !c.hold && !(c.pauseUntil.Some? && now < c.pauseUntil.value)
  }

  // ---------- Runs ----------

  datatype Step =
    | Halt(reason: string, breach: Breach)
    | Pause(now: int, duration: int)
    | Resume(approvedBy: string)
    | Alert
    | Wake(i: nat)
    | SessionStart
    | SessionRequest(to: Session, approvedBy: string)
    | Persist
    | Restart

  /** `unsaved` counts the handlers that have changed memory and have not yet reached their save. */
  datatype World = World(c: Control, unsaved: nat)

  function Changed(w: World, c: Control): World {
    World(c, if Memory(c) == Memory(w.c) then w.unsaved else w.unsaved + 1)
  }

  function Next(w: World, e: Step): World {
    var c := w.c;
    match e
    case Halt(reason, b) => Changed(w, HaltNow(c, reason, b))
    case Pause(now, duration) => Changed(w, PauseNow(c, now, duration))
    case Resume(approvedBy) => Changed(w, ResumeNow(c, approvedBy))
    case Alert => Changed(w, c.(hold := true))
    case Wake(i) =>
      if i < |c.timers| then Changed(w, WakeNow(c.(timers := c.timers[..i] + c.timers[i + 1..]), c.timers[i])) else w
    case SessionStart => World(SessionStartNow(c), w.unsaved)
    case SessionRequest(to, approvedBy) => World(c.(fsm := Move(c.fsm, to, approvedBy)), w.unsaved)
    case Persist => if w.unsaved == 0 then w else World(Save(c), w.unsaved - 1)
    case Restart => World(Startup(c.stored), 0)
  }

  function Run(w: World, steps: seq<Step>): World {
    if steps == [] then w else Next(Run(w, steps[..|steps| - 1]), steps[|steps| - 1])
  }

  lemma {:induction false} RunAppend(w: World, a: seq<Step>, b: seq<Step>)
    ensures Run(w, a + b) == Run(Run(w, a), b)
    decreases |b|
  {
    if b == [] {
      assert a + b == a;
    } else {
      assert (a + b)[..|a + b| - 1] == a + b[..|b| - 1];
      RunAppend(w, a, b[..|b| - 1]);
    }
  }

  // ---------- A halt holds ----------

  /** A halt carries a hold, in memory and in the store, and when no handler is under way the two agree. */
  predicate Coherent(w: World) {
    && (w.c.system == Halted ==> w.c.hold)
    && (w.c.stored.system == Halted ==> w.c.stored.hold)
    && (w.unsaved == 0 ==> w.c.stored == Memory(w.c))
  }

  lemma StartsCoherent(stored: Stored)
    requires stored.system == Halted ==> stored.hold
    ensures Coherent(World(Startup(stored), 0))
  {
  }

  lemma {:induction false} RunKeepsCoherent(w: World, steps: seq<Step>)
    requires Coherent(w)
    ensures Coherent(Run(w, steps))
  {
    if steps != [] {
      RunKeepsCoherent(w, steps[..|steps| - 1]);
      NextKeepsCoherent(Run(w, steps[..|steps| - 1]), steps[|steps| - 1]);
    }
  }

  lemma NextKeepsCoherent(w: World, e: Step)
    requires Coherent(w)
    ensures Coherent(Next(w, e))
  {
    hide Move;
  }

  /** The only step that clears a halt: a resume that names its approver. */
  predicate Clears(w: World, e: Step) {
    e.Resume? && e.approvedBy != "" && w.c.system == Halted
  }

  predicate Uncleared(w: World, steps: seq<Step>) {
    forall i :: 0 <= i < |steps| ==> !Clears(Run(w, steps[..i]), steps[i])
  }

  lemma UnclearedInit(w: World, steps: seq<Step>)
    requires steps != [] && Uncleared(w, steps)
    ensures Uncleared(w, steps[..|steps| - 1])
  {
    var init := steps[..|steps| - 1];
    forall i | 0 <= i < |init| ensures !Clears(Run(w, init[..i]), init[i]) {
      assert init[..i] == steps[..i];
    }
  }

  lemma NextHolds(w: World, e: Step, crashes: bool)
    requires w.c.hold && !Clears(w, e) && (e.Restart? ==> crashes) && (crashes ==> w.c.stored.hold)
    ensures Next(w, e).c.hold && (crashes ==> Next(w, e).c.stored.hold)
    ensures w.c.system == Halted && (crashes ==> w.c.stored.system == Halted) ==>
              Next(w, e).c.system == Halted && (crashes ==> Next(w, e).c.stored.system == Halted)
  {
    hide Move;
  }

  /** Once held, trading stays off whatever the session machine, the timers and the other handlers do, until an
      approved resume of a halt; and a halted system stays halted. Crashes change nothing once the hold, and the halt,
      are saved. */
  lemma {:induction false} HoldLasts(w: World, steps: seq<Step>, crashes: bool, now: int)
    requires w.c.hold && Uncleared(w, steps) && (crashes ==> w.c.stored.hold)
    requires forall e <- steps :: e.Restart? ==> crashes
    ensures var c := Run(w, steps).c;
            && c.hold && !TradingAllowed(c, now) && (crashes ==> c.stored.hold)
            && (w.c.system == Halted && (crashes ==> w.c.stored.system == Halted) ==>
                  c.system == Halted && (crashes ==> c.stored.system == Halted))
  {
    hide Next;
    if steps != [] {
      var k := |steps| - 1;
      UnclearedInit(w, steps);
      assert forall e <- steps[..k] :: e in steps;
      HoldLasts(w, steps[..k], crashes, now);
      assert steps[k] in steps && !Clears(Run(w, steps[..k]), steps[k]);
      NextHolds(Run(w, steps[..k]), steps[k], crashes);
    }
  }

  /** From a halt on, with no approved resume and no crash: the halt is stored once a save has come, and one is still
      due before that. */
  lemma {:induction false} HaltIsStoredIff(w: World, reason: string, b: Breach, later: seq<Step>)
    requires w.c.system != Halted && w.c.stored.system != Halted
    requires forall e <- later :: !e.Restart? && (e.Resume? ==> e.approvedBy == "")
    ensures HaltStored(Run(Next(w, Halt(reason, b)), later), Persist in later)
  {
    if later != [] {
      var k := |later| - 1;
      assert later == later[..k] + [later[k]];
      assert forall e <- later[..k] :: e in later;
      hide Next, HaltStored;
      HaltIsStoredIff(w, reason, b, later[..k]);
      assert later[k] in later;
      StepStored(Run(Next(w, Halt(reason, b)), later[..k]), later[k], Persist in later[..k]);
    } else {
      hide Move;
    }
  }

  predicate HaltStored(w: World, saved: bool) {
    w.c.system == Halted && (w.c.stored.system == Halted <==> saved) && (!saved ==> w.unsaved > 0)
  }

  lemma StepStored(w: World, e: Step, saved: bool)
    requires HaltStored(w, saved) && !e.Restart? && (e.Resume? ==> e.approvedBy == "")
    ensures HaltStored(Next(w, e), saved || e == Persist)
  {
    hide Move, Attempt;
  }

  /** A halt survives a crash if and only if some save came between, whatever other handlers, timers and session
      requests did meanwhile. */
  lemma HaltSurvivesCrashIff(w: World, reason: string, b: Breach, later: seq<Step>)
    requires w.c.system != Halted && w.c.stored.system != Halted
    requires forall e <- later :: !e.Restart? && (e.Resume? ==> e.approvedBy == "")
    ensures Run(w, [Halt(reason, b)] + later + [Restart]).c.system == Halted <==> Persist in later
  {
    hide Next, Run;
    RunAppend(w, [Halt(reason, b)] + later, [Restart]);
    RunAppend(w, [Halt(reason, b)], later);
    RunOne(w, Halt(reason, b));
    RunOne(Run(w, [Halt(reason, b)] + later), Restart);
    HaltIsStoredIff(w, reason, b, later);
    RestartRestores(Run(w, [Halt(reason, b)] + later));
  }

  lemma RestartRestores(w: World)
    ensures Next(w, Restart).c.system == w.c.stored.system
  {
  }

  lemma RunOne(w: World, e: Step)
    ensures Run(w, [e]) == Next(w, e)
  {
    assert [e][..0] == [];
  }

  /** When a halt also stops the session machine: reconciliation halts only from active, risk halts only from active
      or a pause. In every other state the transition is refused and the hold alone keeps trading off. */
  lemma HaltReachesSessionIff(c: Control, reason: string, b: Breach, now: int)
    requires c.system != Halted
    ensures NeedsApproval(HaltNow(c, reason, b).fsm) <==>
            NeedsApproval(c.fsm) || c.fsm == Active
            || (c.fsm == PausedCooldown && b != ReconciliationMismatch)
            || (c.fsm in {WaitingForDataIntegrity, WaitingForRegime} && b in {FeedAnomaly, BusFailure})
    ensures !TradingAllowed(HaltNow(c, reason, b), now)
  {
  }

  /** An approved resume of a halt allows trading unless the session machine was never in a state it may leave for
      active (still booting, waiting for data, or shut down) or an earlier pause has time left: a resume does not
      clear it. */
  lemma ResumeAllowsIff(c: Control, approvedBy: string, now: int)
    requires c.system == Halted && approvedBy != ""
    ensures TradingAllowed(ResumeNow(c, approvedBy), now) <==>
            c.fsm !in {Booting, WaitingForDataIntegrity, Shutdown} && !(c.pauseUntil.Some? && now < c.pauseUntil.value)
    ensures Memory(ResumeNow(c, approvedBy)) == Stored(Trading, None, false)
  {
  }

  // ---------- The session machine follows its table ----------

  function Approver(e: Step): string {
    match e
    case Resume(a) => a
    case SessionRequest(_, a) => a
    case _ => ""
  }

  lemma SessionFollowsTable(w: World, e: Step)
    requires !e.Restart?
    ensures Next(w, e).c.fsm == w.c.fsm || Legal(Entry(w.c.fsm, Next(w, e).c.fsm, Approver(e)))
  {
    hide Permitted;
  }

  /** With no approver named, a halted session machine does not trade again in the life of the process, and a shut-down
      one does nothing more at all. */
  lemma {:induction false} SessionStaysHalted(w: World, steps: seq<Step>)
    requires forall e <- steps :: !e.Restart? && (w.c.fsm == Shutdown || Approver(e) == "")
    requires NeedsApproval(w.c.fsm) || w.c.fsm == Shutdown
    ensures Run(w, steps).c.fsm in {w.c.fsm, Shutdown}
  {
    hide Next, Approver;
    if steps != [] {
      var k := |steps| - 1;
      assert forall e <- steps[..k] :: e in steps;
      SessionStaysHalted(w, steps[..k]);
      assert steps[k] in steps;
      SessionFollowsTable(Run(w, steps[..k]), steps[k]);
    }
  }

  // ---------- Holds and pauses that outlive their cause ----------

  /** An alert's hold, put on while the system is not halted, outlives every resume: only a halt makes a resume clear
      it. */
  lemma {:induction false} HoldNeedsHalt(w: World, steps: seq<Step>, now: int)
    requires w.c.hold && w.c.system != Halted
    requires forall e <- steps :: !e.Halt? && !e.Restart?
    ensures var c := Run(w, steps).c; c.hold && c.system != Halted && !TradingAllowed(c, now)
  {
    hide Move;
    if steps != [] {
      var k := |steps| - 1;
      assert forall e <- steps[..k] :: e in steps;
      HoldNeedsHalt(w, steps[..k], now);
      assert steps[k] in steps;
    }
  }

  /** A restart that finds a pause in the store has lost its timer: without a halt the system stays paused for good, and
      no circuit breaker pauses it again. */
  lemma {:induction false} RestartFreezesPause(stored: Stored, steps: seq<Step>, now: int, duration: int)
    requires stored.system == Paused && forall e <- steps :: !e.Halt?
    ensures var w := Run(World(Startup(stored), 0), steps);
            && w.c.system == Paused && w.c.pauseUntil == None && w.c.timers == [] && w.c.stored.system == Paused
            && Next(w, Pause(now, duration)) == w
  {
    hide Move;
    if steps != [] {
      var k := |steps| - 1;
      assert forall e <- steps[..k] :: e in steps;
      RestartFreezesPause(stored, steps[..k], now, duration);
      assert steps[k] in steps;
    }
  }

  /** And it does not keep trading off: once the session opens, trading is allowed at once. */
  lemma RestartForgetsPause(now: int)
    ensures var steps := [SessionRequest(WaitingForRegime, ""), SessionStart];
            var c := Run(World(Startup(Stored(Paused, None, false)), 0), steps).c;
            c.system == Paused && TradingAllowed(c, now)
  {
    var w := World(Startup(Stored(Paused, None, false)), 0);
    var one, two := SessionRequest(WaitingForRegime, ""), SessionStart;
    assert [one, two] == [one] + [two];
    RunAppend(w, [one], [two]);
    RunOne(w, one);
    RunOne(Run(w, [one]), two);
  }

  // ---------- How long a pause lasts ----------

  /** Every timer due by now goes off, in the order the timers were armed. */
  function WakeDue(c: Control, timers: seq<Timer>, now: int): Control {
    if timers == [] then c
    else
      var before := WakeDue(c, timers[..|timers| - 1], now);
      var t := timers[|timers| - 1];
      if t.due <= now then WakeNow(before, t) else before
  }

  predicate LegacyDue(timers: seq<Timer>, now: int) {
    exists t <- timers :: t.Legacy? && t.due <= now
  }

  predicate FsmDue(timers: seq<Timer>, now: int) {
    exists t <- timers :: t.Fsm? && t.due <= now
  }

  lemma DueSplits(timers: seq<Timer>, t: Timer, now: int)
    ensures LegacyDue(timers + [t], now) <==> LegacyDue(timers, now) || (t.Legacy? && t.due <= now)
    ensures FsmDue(timers + [t], now) <==> FsmDue(timers, now) || (t.Fsm? && t.due <= now)
  {
    assert t in timers + [t];
    assert forall u <- timers :: u in timers + [t];
  }

  lemma {:induction false} WakeDueEffect(c: Control, timers: seq<Timer>, now: int)
    requires c.system == Paused && c.pauseUntil.Some?
    ensures var r := WakeDue(c, timers, now);
            && r.hold == c.hold
            && (if LegacyDue(timers, now) then r.system == Trading && r.pauseUntil == None
                else r.system == Paused && r.pauseUntil == c.pauseUntil)
            && r.fsm == (if c.fsm == PausedCooldown && FsmDue(timers, now) then Active else c.fsm)
  {
    if timers != [] {
      var k := |timers| - 1;
      assert timers[..k] + [timers[k]] == timers;
      hide LegacyDue, FsmDue;
      WakeDueEffect(c, timers[..k], now);
      DueSplits(timers[..k], timers[k], now);
    } else {
      assert !LegacyDue(timers, now) && !FsmDue(timers, now);
    }
  }

  /** Left to its timers, a pause of an active session keeps trading off until its end if and only if no timer pair of
      an earlier pause is still asleep and due before: a halt and a resume in between do not cancel such timers. */
  lemma TimersEndPauseIff(c: Control, start: int, duration: int, now: int)
    requires c.system == Trading && c.fsm == Active && !c.hold && start <= now < start + duration
    ensures var paused := PauseNow(c, start, duration);
            TradingAllowed(WakeDue(paused, paused.timers, now), now)
            <==> LegacyDue(c.timers, now) && FsmDue(c.timers, now)
  {
    var paused := PauseNow(c, start, duration);
    var middle := c.timers + [Fsm(start + duration)];
    assert paused.timers == middle + [Legacy(start + duration)];
    hide LegacyDue, FsmDue;
    DueSplits(c.timers, Fsm(start + duration), now);
    DueSplits(middle, Legacy(start + duration), now);
    WakeDueEffect(paused, paused.timers, now);
  }

  // ----- pauses in runs -----

  /** A step and the time it is taken at. */
  datatype At = At(time: int, step: Step)

  function Follow(w: World, run: seq<At>): World {
    if run == [] then w else Next(Follow(w, run[..|run| - 1]), run[|run| - 1].step)
  }

  function LastTime(from: int, run: seq<At>): int {
    if run == [] then from else run[|run| - 1].time
  }

  /** A step that can be taken at its time: timers wake no earlier than due, and a pause, made then, ends at `least` or
      later. A crash is not among them. */
  predicate Possible(w: World, a: At, least: int) {
    match a.step
    case Restart => false
    case Pause(now, duration) => now == a.time && now + duration >= least
    case Wake(i) => i < |w.c.timers| ==> w.c.timers[i].due <= a.time
    case _ => true
  }

  /** A run from a given time on, its clock not going back. */
  predicate Fits(w: World, run: seq<At>, from: int, least: int) {
    run != [] ==>
      var init, last := run[..|run| - 1], run[|run| - 1];
      Fits(w, init, from, least) && LastTime(from, init) <= last.time && Possible(Follow(w, init), last, least)
  }

  /** The end of the pause still stands, and no timer of the supervisor's own can remove it before. */
  predicate Marked(c: Control, end: int) {
    && c.pauseUntil.Some? && c.pauseUntil.value >= end
    && forall i :: 0 <= i < |c.timers| && c.timers[i].Legacy? ==> c.timers[i].due >= end
  }

  lemma NextMarked(w: World, a: At, end: int, least: int)
    requires Marked(w.c, end) && Possible(w, a, least) && a.time < end <= least
    ensures Marked(Next(w, a.step).c, end)
  {
    hide Move, Attempt;
  }

  lemma {:induction false} RunMarked(w: World, run: seq<At>, from: int, end: int, least: int)
    requires Marked(w.c, end) && Fits(w, run, from, least) && LastTime(from, run) < end <= least
    ensures Marked(Follow(w, run).c, end)
  {
    hide Next, Marked, Possible;
    if run != [] {
      var init := run[..|run| - 1];
      RunMarked(w, init, from, end, least);
      NextMarked(Follow(w, init), run[|run| - 1], end, least);
    }
  }

  /** From a pause on, no run allows trading before its end when later pauses end no earlier than `least`. */
  ghost predicate Lasts(w: World, start: int, duration: int, least: int) {
    forall run, now :: Fits(Next(w, Pause(start, duration)), run, start, least)
                       && LastTime(start, run) <= now < start + duration ==>
      !TradingAllowed(Follow(Next(w, Pause(start, duration)), run).c, now)
  }

  lemma FollowSnoc(w: World, run: seq<At>, a: At, from: int, least: int)
    ensures Follow(w, run + [a]) == Next(Follow(w, run), a.step)
    ensures Fits(w, run + [a], from, least) <==>
            Fits(w, run, from, least) && LastTime(from, run) <= a.time && Possible(Follow(w, run), a, least)
    ensures LastTime(from, run + [a]) == a.time
  {
    hide Next, Possible;
    assert (run + [a])[..|run|] == run;
  }

  lemma FollowNone(w: World, from: int, least: int)
    ensures Follow(w, []) == w && Fits(w, [], from, least) && LastTime(from, []) == from
  {
  }

  /** An earlier pause's timer removes the end; a halt and its resume do the rest. */
  lemma EarlierTimerEnds(w: World, start: int, duration: int, least: int, i: nat)
    requires w.c.system == Trading && w.c.fsm == Active && !w.c.hold && duration > 0
    requires i < |w.c.timers| && w.c.timers[i].Legacy? && w.c.timers[i].due < start + duration
    ensures !Lasts(w, start, duration, least)
  {
    var paused := Next(w, Pause(start, duration));
    var now := if w.c.timers[i].due < start then start else w.c.timers[i].due;
    assert paused.c.timers[i] == w.c.timers[i];
    assert paused.c.system == Paused && paused.c.fsm == PausedCooldown && !paused.c.hold;
    var a, b, e := At(now, Wake(i)), At(now, Halt("", KillSwitch)), At(now, Resume("ops"));
    var w1 := Next(paused, a.step);
    assert w1.c.system == Trading && w1.c.pauseUntil == None && w1.c.fsm == PausedCooldown;
    var w2 := Next(w1, b.step);
    assert w2.c.system == Halted && w2.c.pauseUntil == None && w2.c.fsm == HaltedRisk;
    var w3 := Next(w2, e.step);
    assert TradingAllowed(w3.c, now);
    hide Next, TradingAllowed, Fits, Follow, LastTime;
    FollowNone(paused, start, least);
    FollowSnoc(paused, [], a, start, least);
    FollowSnoc(paused, [] + [a], b, start, least);
    FollowSnoc(paused, [] + [a] + [b], e, start, least);
    assert Fits(paused, [] + [a] + [b] + [e], start, least);
  }

  lemma ReplacedEnd(w: World, start: int, end: int)
    requires w.c.system == Paused && w.c.fsm == PausedCooldown
    ensures var w3 := Next(Next(Next(w, Halt("", KillSwitch)), Resume("ops")), Pause(start, end - start));
            && |w3.c.timers| > |w.c.timers| && w3.c.timers[|w.c.timers|] == Fsm(end)
            && TradingAllowed(Next(w3, Wake(|w.c.timers|)).c, end)
  {
    var w1 := Next(w, Halt("", KillSwitch));
    assert w1.c.system == Halted && w1.c.fsm == HaltedRisk && w1.c.timers == w.c.timers;
    var w2 := Next(w1, Resume("ops"));
    assert w2.c.system == Trading && w2.c.fsm == Active && !w2.c.hold && w2.c.timers == w.c.timers;
    var w3 := Next(w2, Pause(start, end - start));
    assert w3.c.timers == w.c.timers + [Fsm(end)] + [Legacy(end)];
    assert w3.c.fsm == PausedCooldown && !w3.c.hold && w3.c.pauseUntil == Some(end);
  }

  /** A later pause that ends earlier replaces the end, once a halt and its resume have made room for it. */
  lemma ShorterPauseEnds(w: World, start: int, duration: int, least: int)
    requires w.c.system == Trading && w.c.fsm == Active && !w.c.hold && duration > 0 && least < start + duration
    ensures !Lasts(w, start, duration, least)
  {
    var paused := Next(w, Pause(start, duration));
    assert paused.c.fsm == PausedCooldown && paused.c.system == Paused;
    hide Next, TradingAllowed, Fits, Follow, LastTime;
    var end := if least < start then start else least;
    ReplacedEnd(paused, start, end);
    var run := FourSteps(paused, At(start, Halt("", KillSwitch)), At(start, Resume("ops")),
        At(start, Pause(start, end - start)),
                         At(end, Wake(|paused.c.timers|)), start, least);
  }

  lemma FourSteps(w: World, a: At, b: At, c: At, d: At, from: int, least: int) returns (run: seq<At>)
    requires from <= a.time <= b.time <= c.time <= d.time
    requires var w1 := Next(w, a.step);
             var w2 := Next(w1, b.step);
             var w3 := Next(w2, c.step);
             Possible(w, a, least) && Possible(w1, b, least) && Possible(w2, c, least) && Possible(w3, d, least)
    ensures Fits(w, run, from, least) && LastTime(from, run) == d.time
    ensures Follow(w, run) == Next(Next(Next(Next(w, a.step), b.step), c.step), d.step)
  {
    hide Next, Possible, Fits, Follow, LastTime;
    FollowNone(w, from, least);
    FollowSnoc(w, [], a, from, least);
    FollowSnoc(w, [] + [a], b, from, least);
    FollowSnoc(w, [] + [a] + [b], c, from, least);
    FollowSnoc(w, [] + [a] + [b] + [c], d, from, least);
    run := [] + [a] + [b] + [c] + [d];
  }

  /** In every run without a crash, whatever halts, resumes, alerts, session requests, saves, later pauses and due
      timers it holds, a pause of an active session keeps trading off until its end, if and only if no supervisor's
      timer of an earlier pause is asleep and due before that end, and no later pause can end before it. */
  lemma PauseLastsIff(w: World, start: int, duration: int, least: int)
    requires w.c.system == Trading && w.c.fsm == Active && !w.c.hold && duration > 0
    ensures Lasts(w, start, duration, least) <==>
            least >= start + duration
            && forall i :: 0 <= i < |w.c.timers| && w.c.timers[i].Legacy? ==> w.c.timers[i].due >= start + duration
  {
    var end, paused := start + duration, Next(w, Pause(start, duration));
    if i :| 0 <= i < |w.c.timers| && w.c.timers[i].Legacy? && w.c.timers[i].due < end {
      EarlierTimerEnds(w, start, duration, least, i);
    } else if least < end {
      ShorterPauseEnds(w, start, duration, least);
    } else {
      assert Marked(paused.c, end);
      forall run, now | Fits(paused, run, start, least) && LastTime(start, run) <= now < end
        ensures !TradingAllowed(Follow(paused, run).c, now)
      {
        RunMarked(paused, run, start, end, least);
      }
    }
  }

  /** It happens: paused at 0 for 600, halted and resumed, paused again at 500 for 600, and trading again at 600. */
  lemma StaleTimersEndAPause(c: Control)
    requires c.system == Trading && c.fsm == Active && !c.hold && c.timers == [] && c.pauseUntil == None
    ensures var first := ResumeNow(HaltNow(PauseNow(c, 0, 600), "", KillSwitch), "ops");
            var second := PauseNow(first, 500, 600);
            second.system == Paused && TradingAllowed(WakeDue(second, second.timers, 600), 600)
  {
    var first := ResumeNow(HaltNow(PauseNow(c, 0, 600), "", KillSwitch), "ops");
    assert first.timers == [Fsm(600), Legacy(600)] && first.fsm == Active && first.system == Trading;
    assert first.timers[0] == Fsm(600) && first.timers[1] == Legacy(600);
    assert LegacyDue(first.timers, 600) && FsmDue(first.timers, 600);
    TimersEndPauseIff(first, 500, 600, 600);
  }

  /** And so does this: paused at 0 for 600, halted and resumed, paused at 30 for 300, and trading again at 330. */
  lemma ShorterPauseReplaces(c: Control)
    requires c.system == Trading && c.fsm == Active && !c.hold && c.timers == []
    ensures var first := ResumeNow(HaltNow(PauseNow(c, 0, 600), "", KillSwitch), "ops");
            var second := PauseNow(first, 30, 300);
            !TradingAllowed(WakeDue(first, first.timers, 330), 330)
            && TradingAllowed(WakeDue(second, second.timers, 330), 330)
  {
    var first := ResumeNow(HaltNow(PauseNow(c, 0, 600), "", KillSwitch), "ops");
    assert first.timers == [Fsm(600), Legacy(600)] && first.fsm == Active && first.system == Trading;
    assert WakeDue(first, [], 330) == first;
    assert [Fsm(600)][..0] == [] && WakeDue(first, [Fsm(600)], 330) == first;
    assert first.timers[..1] == [Fsm(600)] && WakeDue(first, first.timers, 330) == first;
    var second := PauseNow(first, 30, 300);
    assert second.timers == [Fsm(600), Legacy(600), Fsm(330), Legacy(330)];
    assert second.timers[2] == Fsm(330) && second.timers[3] == Legacy(330);
    WakeDueEffect(second, second.timers, 330);
  }
}

/** The session boundaries and the named timers of the clock. A tick carries the Eastern day and minute; timers use one
    integer clock. */
module GlobalClock {
  import opened Text

  // ---------- Session boundaries ----------

  /** A reading of the Eastern clock: a day number (0 is a Monday) and a minute of that day. */
  datatype Reading = Reading(day: int, minute: int)

  const OPEN_MINUTE: int := 570
  const CLOSE_MINUTE: int := 960

  predicate Weekday(t: Reading) {
    t.day % 7 < 5
  }

  predicate AtOpen(t: Reading) {
    t.minute == OPEN_MINUTE && Weekday(t)
  }

  predicate Early(t: Reading) {
    t.minute < OPEN_MINUTE
  }

  predicate AfterClose(t: Reading) {
    t.minute >= CLOSE_MINUTE && Weekday(t)
  }

  datatype Session = Start(day: int) | End(day: int)

  datatype Flags = Flags(started: bool, ended: bool)

  /** `_check_session_boundaries`. */
  function Check(f: Flags, t: Reading): (Flags, seq<Session>) {
    if AtOpen(t) then
      if f.started then (f, []) else (Flags(true, false), [Start(t.day)])
    else
      var g := if Early(t) then f.(started := false) else f;
      if AfterClose(t) && !g.ended && g.started then (g.(ended := true), [End(t.day)]) else (g, [])
  }

  function After(ticks: seq<Reading>): Flags {
    if ticks == [] then Flags(false, false) else Check(After(ticks[..|ticks| - 1]), ticks[|ticks| - 1]).0
  }

  /** What tick n publishes. */
  function Published(ticks: seq<Reading>, n: nat): seq<Session>
    requires n < |ticks|
  {
    Check(After(ticks[..n]), ticks[n]).1
  }

  function Log(ticks: seq<Reading>): seq<Session> {
    if ticks == [] then [] else Log(ticks[..|ticks| - 1]) + Check(After(ticks[..|ticks| - 1]), ticks[|ticks| - 1]).1
  }

  /** Tick i is in the opening minute, and no tick after it is before the opening. */
  predicate OpenSince(ticks: seq<Reading>, i: int) {
    0 <= i < |ticks| && AtOpen(ticks[i]) && forall j :: i < j < |ticks| ==> !Early(ticks[j])
  }

  predicate ClosedSince(ticks: seq<Reading>, i: int) {
    0 <= i && exists j :: i < j < |ticks| && AfterClose(ticks[j])
  }

  lemma OpenSinceExtends(ticks: seq<Reading>, t: Reading, i: int)
    requires i < |ticks|
    ensures OpenSince(ticks + [t], i) <==> OpenSince(ticks, i) && !Early(t)
    ensures i >= 0 ==> (ClosedSince(ticks + [t], i) <==> ClosedSince(ticks, i) || AfterClose(t))
  {
    var more := ticks + [t];
    if OpenSince(more, i) {
      assert !Early(more[|ticks|]);
      assert forall j :: i < j < |ticks| ==> more[j] == ticks[j] && !Early(ticks[j]);
    }
    if ClosedSince(ticks, i) {
      var j :| i < j < |ticks| && AfterClose(ticks[j]);
      assert AfterClose(more[j]);
    }
    if AfterClose(t) { assert AfterClose(more[|ticks|]); }
  }

  /** What the two flags mean, in terms of the ticks alone: a session is under way when an opening minute has been seen
      and nothing before an opening since; it is over when a tick after the close has followed. */
  lemma {:induction false} FlagsMean(ticks: seq<Reading>)
    ensures After(ticks).started <==> exists i :: OpenSince(ticks, i)
    ensures After(ticks).started ==> (After(ticks).ended <==> exists i :: OpenSince(ticks, i) && ClosedSince(ticks, i))
  {
    OpenInRange(ticks);
    if ticks != [] {
      var init, t := ticks[..|ticks| - 1], ticks[|ticks| - 1];
      assert ticks == init + [t];
      FlagsMean(init);
      hide OpenSince, ClosedSince;
      forall i | 0 <= i < |init|
        ensures OpenSince(ticks, i) <==> OpenSince(init, i) && !Early(t)
        ensures ClosedSince(ticks, i) <==> ClosedSince(init, i) || AfterClose(t)
      {
        OpenSinceExtends(init, t, i);
      }
      LastOpen(init, t);
      OpenInRange(init);
      if exists i :: OpenSince(init, i) {
        var i :| OpenSince(init, i);
        assert OpenSince(ticks, i) <==> !Early(t);
      }
      assert AtOpen(t) ==> OpenSince(ticks, |init|);
    }
  }

  lemma LastOpen(init: seq<Reading>, t: Reading)
    ensures OpenSince(init + [t], |init|) <==> AtOpen(t)
    ensures !ClosedSince(init + [t], |init|)
  {
  }

  lemma OpenInRange(ticks: seq<Reading>)
    ensures forall i :: OpenSince(ticks, i) ==> 0 <= i < |ticks|
  {
  }

  /** A clock read once a minute from the start of day 0. */
  function EveryMinute(n: nat): (ticks: seq<Reading>)
    ensures |ticks| == n && forall i :: 0 <= i < n ==> ticks[i] == Reading(i / 1440, i % 1440)
  {
    seq(n, i => Reading(i / 1440, i % 1440))
  }

  predicate MondayToFriday(day: int) {
    day % 7 in {0, 1, 2, 3, 4}
  }

  lemma {:induction false} MinuteFlags(n: nat)
    requires n > 0
    ensures var f, day, minute := After(EveryMinute(n)), (n - 1) / 1440, (n - 1) % 1440;
            && (f.started <==> minute >= 9 * 60 + 30 && MondayToFriday(day))
            && (f.started ==> (f.ended <==> minute >= 16 * 60))
  {
    assert EveryMinute(n)[..n - 1] == EveryMinute(n - 1);
    if n > 1 {
      MinuteFlags(n - 1);
      NextMinute(n - 2);
    }
  }

  lemma NextMinute(i: nat)
    ensures (i + 1) / 1440 == (if i % 1440 == 1439 then i / 1440 + 1 else i / 1440)
    ensures (i + 1) % 1440 == if i % 1440 == 1439 then 0 else i % 1440 + 1
  {
  }

  /** Read once a minute, the clock starts a session at 09:30 and ends it at 16:00, Monday to Friday, and publishes
      nothing else. */
  lemma MinuteClock(n: nat, k: nat)
    requires k < n
    ensures var day, minute := k / 1440, k % 1440;
            Published(EveryMinute(n), k) ==
              if MondayToFriday(day) && minute == 9 * 60 + 30 then [Start(day)]
              else if MondayToFriday(day) && minute == 16 * 60 then [End(day)] else []
  {
    assert EveryMinute(n)[..k] == EveryMinute(k);
    if k > 0 {
      MinuteFlags(k);
      NextMinute(k - 1);
    }
  }

  /** A tick starts a session if and only if it is in the opening minute of a weekday and every earlier opening minute
      was followed by some tick before an opening: a clock stopped overnight starts nothing the next day. */
  lemma StartIff(ticks: seq<Reading>, n: nat)
    requires n < |ticks|
    ensures Published(ticks, n) == [Start(ticks[n].day)] <==> AtOpen(ticks[n]) && !exists i :: OpenSince(ticks[..n], i)
  {
    FlagsMean(ticks[..n]);
  }

  /** A tick ends a session if and only if it is the first one after a weekday's close since an opening minute, with no
      tick before an opening in between. */
  lemma EndIff(ticks: seq<Reading>, n: nat)
    requires n < |ticks|
    ensures Published(ticks, n) == [End(ticks[n].day)] <==>
            AfterClose(ticks[n]) && (exists i :: OpenSince(ticks[..n], i))
            && forall i :: OpenSince(ticks[..n], i) ==> !ClosedSince(ticks[..n], i)
  {
    hide OpenSince, ClosedSince;
    FlagsMean(ticks[..n]);
  }

  /** The clock does not go back. */
  predicate Forward(ticks: seq<Reading>) {
    forall i, j :: 0 <= i < j < |ticks| ==>
      ticks[i].day < ticks[j].day || (ticks[i].day == ticks[j].day && ticks[i].minute <= ticks[j].minute)
  }

  predicate StartsRise(log: seq<Session>) {
    forall i, j :: 0 <= i < j < |log| && log[i].Start? && log[j].Start? ==> log[i].day < log[j].day
  }

  predicate EndsFollowStarts(log: seq<Session>) {
    forall i :: 0 <= i < |log| && log[i].End? ==> i > 0 && log[i - 1].Start?
  }

  /** What the log says about the flags, at a moment no earlier than its entries. */
  predicate Tracks(log: seq<Session>, f: Flags, t: Reading) {
    && (log == [] ==> !f.started)
    && (log != [] && log[|log| - 1].End? ==> f.ended)
    && (forall i :: 0 <= i < |log| && log[i].Start? ==>
          log[i].day < t.day || (log[i].day == t.day && t.minute >= OPEN_MINUTE && f.started))
  }

  /** In every run of a clock that does not go back: at most one session starts a day, and every end directly follows a
      start, so no session ends twice or before it began. */
  lemma {:induction false} SessionsAlternate(ticks: seq<Reading>)
    requires Forward(ticks)
    ensures StartsRise(Log(ticks)) && EndsFollowStarts(Log(ticks))
    ensures ticks != [] ==> Tracks(Log(ticks), After(ticks), ticks[|ticks| - 1])
  {
    if ticks != [] {
      var k := |ticks| - 1;
      SessionsAlternate(ticks[..k]);
      if k == 0 {
        assert Log(ticks[..0]) == [] && After(ticks[..0]) == Flags(false, false);
      } else {
        assert ticks[..k][k - 1] == ticks[k - 1];
        LaterTracks(Log(ticks[..k]), After(ticks[..k]), ticks[k - 1], ticks[k]);
      }
      CheckTracks(Log(ticks[..k]), After(ticks[..k]), ticks[k]);
    }
  }

  lemma LaterTracks(log: seq<Session>, f: Flags, before: Reading, t: Reading)
    requires Tracks(log, f, before)
    requires before.day < t.day || (before.day == t.day && before.minute <= t.minute)
    ensures Tracks(log, f, t)
  {
  }

  lemma CheckTracks(log: seq<Session>, f: Flags, t: Reading)
    requires Tracks(log, f, t) && StartsRise(log) && EndsFollowStarts(log)
    ensures var (g, sent) := Check(f, t);
            Tracks(log + sent, g, t) && StartsRise(log + sent) && EndsFollowStarts(log + sent)
  {
    var (g, sent) := Check(f, t);
    if sent == [] {
      assert log + sent == log;
    } else {
      assert log + sent == log + [sent[0]];
      hide Weekday;
    }
  }

  lemma LeastAfterClose(ticks: seq<Reading>, i: nat, j: nat) returns (m: nat)
    requires i < j < |ticks| && AfterClose(ticks[j])
    ensures i < m <= j && AfterClose(ticks[m]) && forall k :: i < k < m ==> !AfterClose(ticks[k])
    decreases j
  {
    if k :| i < k < j && AfterClose(ticks[k]) {
      m := LeastAfterClose(ticks, i, k);
    } else {
      m := j;
    }
  }

  /** A session that starts is ended on its own day if and only if the clock ticks after the close of that day;
      otherwise it is ended late or not at all. */
  lemma EndsOnItsDayIff(ticks: seq<Reading>, i: nat)
    requires Forward(ticks) && i < |ticks| && Published(ticks, i) == [Start(ticks[i].day)]
    ensures (exists n :: i < n < |ticks| && Published(ticks, n) == [End(ticks[i].day)])
            <==> exists j :: i < j < |ticks| && ticks[j].day == ticks[i].day && ticks[j].minute >= CLOSE_MINUTE
  {
    hide Published, Forward;
    var d := ticks[i].day;
    StartIff(ticks, i);
    if n :| i < n < |ticks| && Published(ticks, n) == [End(d)] {
      EndDay(ticks, n, d);
      EndIff(ticks, n);
      assert ticks[n].day == d && ticks[n].minute >= CLOSE_MINUTE;
    }
    if j :| i < j < |ticks| && ticks[j].day == d && ticks[j].minute >= CLOSE_MINUTE {
      var m := LeastAfterClose(ticks, i, j);
      SameDay(ticks, i, m, j);
      OpenUntil(ticks, i, m);
      NotClosedUntil(ticks, i, m);
      EndIff(ticks, m);
    }
  }

  lemma EndDay(ticks: seq<Reading>, n: nat, d: int)
    requires n < |ticks| && Published(ticks, n) == [End(d)]
    ensures ticks[n].day == d
  {
  }

  lemma SameDay(ticks: seq<Reading>, i: nat, m: nat, j: nat)
    requires Forward(ticks) && i < m <= j < |ticks| && ticks[i].day == ticks[j].day && ticks[i].minute >= OPEN_MINUTE
    ensures forall k :: i < k <= m ==> ticks[k].day == ticks[i].day && !Early(ticks[k])
  {
  }

  lemma OpenUntil(ticks: seq<Reading>, i: nat, m: nat)
    requires i < m <= |ticks| && AtOpen(ticks[i]) && forall k :: i < k < m ==> !Early(ticks[k])
    ensures OpenSince(ticks[..m], i)
  {
  }

  /** No opening before a start is still open at it, so none closed before m counts. */
  lemma NotClosedUntil(ticks: seq<Reading>, i: nat, m: nat)
    requires i < m <= |ticks| && !(exists k :: OpenSince(ticks[..i], k))
    requires forall k :: i < k < m ==> !AfterClose(ticks[k])
    ensures forall k :: OpenSince(ticks[..m], k) ==> !ClosedSince(ticks[..m], k)
  {
    forall k | OpenSince(ticks[..m], k) ensures !ClosedSince(ticks[..m], k) {
      if k < i {
        assert forall l :: k < l < i ==> ticks[..m][l] == ticks[..i][l] && !Early(ticks[..m][l]);
        assert ticks[..i][k] == ticks[..m][k];
        assert OpenSince(ticks[..i], k);
      }
    }
  }

  /** It happens: a Monday session without ticks after its close, or before the next openings, ends on Wednesday. */
  lemma EndCanComeLate()
    ensures Log([Reading(0, 570), Reading(2, 960)]) == [Start(0), End(2)]
  {
    var a, b := Reading(0, 570), Reading(2, 960);
    assert [a, b][..1] == [a] && [a][..0] == [];
    assert After([a]) == Flags(true, false) && Log([a]) == [Start(0)];
  }

  // ---------- Named timers ----------

  /** A registered timer object; `id` tells it from any other, of the same name or not. */
  datatype Timer = Timer(id: nat, expiresAt: int, repeatSec: Option<int>)

  datatype Due = Due(name: string, timer: Timer)

  datatype Firing = Firing(name: string, expiredAt: int, firedAt: int)

  /** The registered timers; the time of the last tick, what it found expired and has yet to settle, and whether it
      awaits the publish of the first of them; and everything fired. */
  datatype Registry = Registry(timers: map<string, Timer>, nextId: nat, now: int, due: seq<Due>, awaiting: bool,
                               log: seq<Firing>)

  datatype Event =
    | Tick(now: int, order: seq<string>)
    | Publish
    | Settle
    | RegisterTimer(name: string, expiresAt: int, repeatSec: Option<int>)
    | CancelTimer(name: string)

  predicate Resting(r: Registry) {
    r.due == [] && !r.awaiting
  }

  /** The expired names, in the order of the registry, which is left open. */
  predicate Lists(ts: map<string, Timer>, now: int, order: seq<string>) {
    && (forall i, j :: 0 <= i < j < |order| ==> order[i] != order[j])
    && (forall name <- order :: name in ts && ts[name].expiresAt <= now)
    && (forall name <- ts :: ts[name].expiresAt <= now ==> name in order)
  }

  function Dues(ts: map<string, Timer>, order: seq<string>): (ds: seq<Due>)
    requires forall name <- order :: name in ts
    ensures |ds| == |order| && forall i :: 0 <= i < |ds| ==> ds[i] == Due(order[i], ts[order[i]])
  {
    seq(|order|, i requires 0 <= i < |order| => Due(order[i], ts[order[i]]))
  }

  /** After its publish, a repeating timer is rescheduled from its own expiry, in the registry if it is still the one
      there; a one-shot timer's name is deleted, whichever timer has it by then. */
  function Settled(ts: map<string, Timer>, d: Due): map<string, Timer> {
    if d.timer.repeatSec == None then ts - {d.name}
    else if d.name in ts && ts[d.name].id == d.timer.id
    then ts[d.name := ts[d.name].(expiresAt := ts[d.name].expiresAt + d.timer.repeatSec.value)]
    else ts
  }

  function Step(r: Registry, e: Event): Registry {
    match e
    case Tick(now, order) =>
      if Resting(r) && Lists(r.timers, now, order) then r.(now := now, due := Dues(r.timers, order)) else r
    case Publish =>
      if !r.awaiting && r.due != [] then
        r.(awaiting := true, log := r.log + [Firing(r.due[0].name, r.due[0].timer.expiresAt, r.now)])
      else r
    case Settle =>
      if r.awaiting && r.due != [] then r.(awaiting := false, due := r.due[1..],
          timers := Settled(r.timers, r.due[0])) else r
    case RegisterTimer(name, expiresAt, repeatSec) =>
      r.(timers := r.timers[name := Timer(r.nextId, expiresAt, repeatSec)], nextId := r.nextId + 1)
    case CancelTimer(name) => r.(timers := r.timers - {name})
  }

  function Run(r: Registry, events: seq<Event>): Registry {
    if events == [] then r else Step(Run(r, events[..|events| - 1]), events[|events| - 1])
  }

  /** The firings of one name. */
  function Of(log: seq<Firing>, name: string): seq<Firing> {
    if log == [] then []
    else Of(log[..|log| - 1], name) + if log[|log| - 1].name == name then [log[|log| - 1]] else []
  }

  lemma OfLast(log: seq<Firing>, f: Firing, name: string)
    ensures Of(log + [f], name) == Of(log, name) + if f.name == name then [f] else []
  {
    assert (log + [f])[..|log|] == log;
  }

  predicate Named(ds: seq<Due>, name: string) {
    exists i :: 0 <= i < |ds| && ds[i].name == name
  }

  /** The tick's timers have distinct names and ids handed out before. */
  predicate Orderly(r: Registry) {
    && (r.awaiting ==> r.due != [])
    && Distinct(r.due)
    && (forall i :: 0 <= i < |r.due| ==> r.due[i].timer.id < r.nextId)
    && (forall name <- r.timers :: r.timers[name].id < r.nextId)
  }

  predicate Distinct(ds: seq<Due>) {
    forall i, j :: 0 <= i < j < |ds| ==> ds[i].name != ds[j].name
  }

  lemma StepOrderly(r: Registry, e: Event)
    requires Orderly(r)
    ensures Orderly(Step(r, e))
  {
  }

  lemma {:induction false} RunOrderly(r: Registry, events: seq<Event>)
    requires Orderly(r)
    ensures Orderly(Run(r, events))
  {
    hide Orderly, Step;
    if events != [] {
      RunOrderly(r, events[..|events| - 1]);
      StepOrderly(Run(r, events[..|events| - 1]), events[|events| - 1]);
    }
  }

  predicate Untouched(events: seq<Event>, name: string) {
    forall e <- events ::
      (e.RegisterTimer? ==> e.name != name) && (e.CancelTimer? ==> e.name != name)
  }

  // ----- repeating timers -----

  /** The k-th expiry of a repeating timer. */
  function Expiry(first: int, period: int, k: nat): int {
    first + k * period
  }

  lemma NextExpiry(first: int, period: int, k: nat)
    ensures Expiry(first, period, k + 1) == Expiry(first, period, k) + period
  {
  }

  /** A timer the tick still has to settle is the registered one, and has expired. */
  predicate Current(r: Registry, name: string) {
    && name in r.timers
    && forall i :: 0 <= i < |r.due| && r.due[i].name == name ==>
         r.due[i].timer == r.timers[name] && r.timers[name].expiresAt <= r.now
  }

  predicate Awaited(r: Registry, name: string) {
    r.awaiting && r.due != [] && r.due[0].name == name
  }

  /** How many expiries of a timer lie behind it: it is rescheduled only once its publish returns. */
  function Behind(r: Registry, name: string): int {
    |Of(r.log, name)| - if Awaited(r, name) then 1 else 0
  }

  /** The firings so far carry the expiries in order, none early, and the timer stands at the next one. */
  predicate OnSchedule(r: Registry, name: string, first: int, period: int) {
    var fired := Of(r.log, name);
    && Orderly(r) && Current(r, name) && r.timers[name].repeatSec == Some(period)
    && Behind(r, name) >= 0 && r.timers[name].expiresAt == Expiry(first, period, Behind(r, name))
    && forall k :: 0 <= k < |fired| ==> fired[k].expiredAt == Expiry(first, period, k) <= fired[k].firedAt
  }

  /** A timer whose own name is neither registered nor cancelled: what each step of a tick does to it. */
  lemma StepOf(r: Registry, e: Event, name: string)
    requires Orderly(r) && Current(r, name) && Untouched([e], name)
    requires r.timers[name].repeatSec.Some?
    ensures var s, t := Step(r, e), r.timers[name];
            && Orderly(s) && Current(s, name)
            && (if e == Publish && !Awaited(r, name) && Awaited(s, name)
                then Of(s.log, name) == Of(r.log, name) + [Firing(name, t.expiresAt, r.now)] && t.expiresAt <= r.now
                    && s.timers[name] == t
                else Of(s.log, name) == Of(r.log, name)
                     && if e == Settle && Awaited(r, name)
                        then !Awaited(s, name) && s.timers[name] == t.(expiresAt := t.expiresAt + t.repeatSec.value)
                        else Awaited(s, name) == Awaited(r, name) && s.timers[name] == t)
  {
    assert e in [e];
    StepOrderly(r, e);
    hide Orderly, Of;
    if e == Publish && !r.awaiting && r.due != [] {
      OfLast(r.log, Firing(r.due[0].name, r.due[0].timer.expiresAt, r.now), name);
    }
    if e == Settle && r.due != [] { FirstIsDistinct(r); }
  }

  lemma FirstIsDistinct(r: Registry)
    requires Orderly(r) && r.due != []
    ensures forall i :: 0 <= i < |r.due[1..]| ==> r.due[1..][i] == r.due[i + 1] && r.due[i + 1].name != r.due[0].name
  {
  }

  lemma StepOnSchedule(r: Registry, e: Event, name: string, first: int, period: int)
    requires OnSchedule(r, name, first, period) && Untouched([e], name)
    ensures OnSchedule(Step(r, e), name, first, period)
  {
    hide Orderly, Current, Step, Of, Expiry, Awaited;
    StepOf(r, e, name);
    if Behind(r, name) >= 0 { NextExpiry(first, period, Behind(r, name)); }
  }

  /** Over any run that leaves a repeating timer's name alone, whatever happens to the others and wherever in a tick,
      its k-th firing carries its first expiry plus k periods exactly, and never comes early. */
  lemma {:induction false} NoDrift(r: Registry, events: seq<Event>, name: string, first: int, period: int)
    requires Orderly(r) && Resting(r) && name in r.timers && Of(r.log, name) == []
    requires r.timers[name].expiresAt == first && r.timers[name].repeatSec == Some(period) && Untouched(events, name)
    ensures OnSchedule(Run(r, events), name, first, period)
  {
    hide Step, Orderly;
    if events != [] {
      hide OnSchedule;
      var k := |events| - 1;
      assert forall e <- events[..k] :: e in events;
      NoDrift(r, events[..k], name, first, period);
      assert events[k] in events;
      StepOnSchedule(Run(r, events[..k]), events[k], name, first, period);
    }
  }

  /** Ticks no further apart than the period. */
  predicate Dense(r: Registry, events: seq<Event>, period: int) {
    forall i :: 0 <= i < |events| && events[i].Tick? ==> events[i].now <= Run(r, events[..i]).now + period
  }

  lemma DenseInit(r: Registry, events: seq<Event>, period: int)
    requires events != [] && Dense(r, events, period)
    ensures Dense(r, events[..|events| - 1], period)
  {
    var init := events[..|events| - 1];
    forall i | 0 <= i < |init| && init[i].Tick? ensures init[i].now <= Run(r, init[..i]).now + period {
      assert init[..i] == events[..i];
    }
  }

  /** Less than a period late while the tick has it in hand, not yet expired otherwise. */
  predicate Timely(r: Registry, name: string, period: int) {
    name in r.timers && r.timers[name].expiresAt > if Named(r.due, name) then r.now - period else r.now
  }

  lemma StepTimely(r: Registry, e: Event, name: string, period: int)
    requires Orderly(r) && Current(r, name) && r.timers[name].repeatSec == Some(period) && Timely(r, name, period)
    requires Untouched([e], name) && (e.Tick? ==> e.now <= r.now + period)
    ensures Timely(Step(r, e), name, period)
  {
    assert e in [e];
    hide Orderly;
    match e
    case Tick(now, order) =>
      if Resting(r) && Lists(r.timers, now, order)
          && r.timers[name].expiresAt <= now { ListedIsNamed(r.timers, now, order, name); }
    case Settle =>
      if r.awaiting && r.due != [] {
        FirstIsDistinct(r);
        NamedTail(r.due, name);
      }
    case _ =>
  }

  lemma ListedIsNamed(ts: map<string, Timer>, now: int, order: seq<string>, name: string)
    requires Lists(ts, now, order) && name in ts && ts[name].expiresAt <= now
    ensures Named(Dues(ts, order), name)
  {
    var i :| 0 <= i < |order| && order[i] == name;
    assert Dues(ts, order)[i].name == name;
  }

  /** Ticks no further apart than its period fire a repeating timer for every expiry that has passed, in each tick. */
  lemma {:induction false} KeepsUp(r: Registry, events: seq<Event>, name: string, first: int, period: int)
    requires Orderly(r) && Resting(r) && name in r.timers && Of(r.log, name) == [] && r.now < first
    requires r.timers[name].expiresAt == first && r.timers[name].repeatSec == Some(period)
    requires Untouched(events, name) && Dense(r, events, period)
    ensures Timely(Run(r, events), name, period)
    ensures Resting(Run(r, events)) ==> Expiry(first, period, |Of(Run(r, events).log, name)|) > Run(r, events).now
  {
    NoDrift(r, events, name, first, period);
    if events != [] {
      var k := |events| - 1;
      assert forall e <- events[..k] :: e in events;
      DenseInit(r, events, period);
      hide Step, Orderly, Of, Expiry, Timely, Current;
      KeepsUp(r, events[..k], name, first, period);
      NoDrift(r, events[..k], name, first, period);
      assert events[k] in events;
      StepTimely(Run(r, events[..k]), events[k], name, period);
    }
    RestingTimely(Run(r, events), name, first, period);
  }

  lemma RestingTimely(r: Registry, name: string, first: int, period: int)
    requires OnSchedule(r, name, first, period) && Timely(r, name, period)
    ensures Resting(r) ==> Expiry(first, period, |Of(r.log, name)|) > r.now
  {
    hide Of, Expiry, Orderly, Current;
  }

  // ----- one-shot timers -----

  /** A one-shot timer waits, unexpired or in the tick's hands; or is being published; or has fired and is gone. */
  predicate OneShot(r: Registry, name: string, at: int) {
    var fired := Of(r.log, name);
    && Orderly(r)
    && (if fired == [] then
          Current(r, name) && !Awaited(r, name) && r.timers[name].expiresAt == at && r.timers[name].repeatSec == None
          && (at > r.now || Named(r.due, name))
        else
          |fired| == 1 && fired[0].expiredAt == at <= fired[0].firedAt
          && (Awaited(r, name) <==> name in r.timers)
          && (Awaited(r, name) <==> Named(r.due, name))
          && (Awaited(r, name) ==> r.due[0].timer.repeatSec == None))
  }

  lemma OneShotTick(r: Registry, now: int, order: seq<string>, name: string, at: int)
    requires OneShot(r, name, at) && Resting(r) && Lists(r.timers, now, order)
    ensures OneShot(Step(r, Tick(now, order)), name, at)
  {
    StepOrderly(r, Tick(now, order));
    hide Orderly, Of;
    if name in r.timers {
      if r.timers[name].expiresAt <= now { ListedIsNamed(r.timers, now, order, name); }
    } else {
      assert !Named(Dues(r.timers, order), name);
    }
  }

  lemma OneShotPublish(r: Registry, name: string, at: int)
    requires OneShot(r, name, at) && !r.awaiting && r.due != []
    ensures OneShot(Step(r, Publish), name, at)
  {
    StepOrderly(r, Publish);
    OfLast(r.log, Firing(r.due[0].name, r.due[0].timer.expiresAt, r.now), name);
    NamedTail(r.due, name);
    FirstUnnamed(r);
    hide Orderly, Of, Named;
  }

  lemma OneShotSettle(r: Registry, name: string, at: int)
    requires OneShot(r, name, at) && r.awaiting && r.due != []
    ensures OneShot(Step(r, Settle), name, at)
  {
    StepOrderly(r, Settle);
    FirstIsDistinct(r);
    NamedTail(r.due, name);
    FirstUnnamed(r);
    hide Orderly, Of, Named;
  }

  lemma StepOneShot(r: Registry, e: Event, name: string, at: int)
    requires OneShot(r, name, at) && Untouched([e], name)
    ensures OneShot(Step(r, e), name, at)
  {
    assert e in [e];
    if e.Tick? && Resting(r) && Lists(r.timers, e.now, e.order) {
      OneShotTick(r, e.now, e.order, name, at);
    } else if e == Publish && !r.awaiting && r.due != [] {
      OneShotPublish(r, name, at);
    } else if e == Settle && r.awaiting && r.due != [] {
      OneShotSettle(r, name, at);
    } else {
      StepOrderly(r, e);
      hide Orderly, Of, Named;
    }
  }

  /** A timer without a period fires at most once, at its expiry and not before; while it waits no tick has reached
      it, and once its tick is over it is gone. */
  lemma {:induction false} OneShotFiresOnce(r: Registry, events: seq<Event>, name: string, at: int)
    requires Orderly(r) && Resting(r) && name in r.timers && Of(r.log, name) == [] && r.now < at
    requires r.timers[name].expiresAt == at && r.timers[name].repeatSec == None && Untouched(events, name)
    ensures var u := Run(r, events);
            && OneShot(u, name, at)
            && (Resting(u) ==> if name in u.timers then Of(u.log, name) == [] && at > u.now else |Of(u.log, name)| == 1)
  {
    hide Step, Orderly;
    if events != [] {
      hide OneShot;
      var k := |events| - 1;
      assert forall e <- events[..k] :: e in events;
      OneShotFiresOnce(r, events[..k], name, at);
      assert events[k] in events;
      StepOneShot(Run(r, events[..k]), events[k], name, at);
      OneShotAtRest(Run(r, events), name, at);
    }
  }

  lemma OneShotAtRest(r: Registry, name: string, at: int)
    requires OneShot(r, name, at)
    ensures Resting(r) ==> if name in r.timers then Of(r.log, name) == [] && at > r.now else |Of(r.log, name)| == 1
  {
    hide Orderly;
  }

  // ----- registrations and cancellations during a tick -----

  /** The rest of a tick: no new tick, and the name is left alone. */
  predicate RestOfTick(events: seq<Event>, name: string) {
    Untouched(events, name) && forall e <- events :: !e.Tick?
  }

  predicate Deletes(d: Due, name: string) {
    d.name == name && d.timer.repeatSec == None
  }

  /** The tick has yet to settle a one-shot timer of that name. */
  predicate Threatened(r: Registry, name: string) {
    exists i :: 0 <= i < |r.due| && Deletes(r.due[i], name)
  }

  lemma ThreatenedTail(r: Registry, s: Registry, name: string)
    requires r.due != [] && s.due == r.due[1..]
    ensures Threatened(r, name) <==> Deletes(r.due[0], name) || Threatened(s, name)
  {
    if Threatened(s, name) {
      var i :| 0 <= i < |s.due| && Deletes(s.due[i], name);
      assert Deletes(r.due[i + 1], name);
    }
    if Threatened(r, name) && !Deletes(r.due[0], name) {
      var i :| 0 <= i < |r.due| && Deletes(r.due[i], name);
      assert Deletes(s.due[i - 1], name);
    }
  }

  /** A timer registered under `name`, newer than everything the tick holds. */
  predicate Newest(r: Registry, name: string, t: Timer) {
    name in r.timers && r.timers[name] == t && forall i :: 0 <= i < |r.due| ==> r.due[i].timer.id != t.id
  }

  lemma StepNewest(r: Registry, e: Event, name: string, t: Timer)
    requires Orderly(r) && RestOfTick([e], name)
    ensures Threatened(Step(r, e), name) ==> Threatened(r, name)
    ensures Newest(r, name, t) && (Threatened(r, name) ==> Threatened(Step(r, e), name)) ==> Newest(Step(r, e), name, t)
    ensures Threatened(r, name) && !Threatened(Step(r, e), name) ==> name !in Step(r, e).timers
    ensures name !in r.timers ==> name !in Step(r, e).timers
  {
    assert e in [e];
    var s := Step(r, e);
    if e == Settle && r.awaiting && r.due != [] {
      ThreatenedTail(r, s, name);
      FirstIsDistinct(r);
      if Deletes(r.due[0], name) { OnlyThreat(r, name); }
    }
  }

  lemma OnlyThreat(r: Registry, name: string)
    requires Orderly(r) && r.due != [] && Deletes(r.due[0], name)
    ensures forall i :: 0 < i < |r.due| ==> !Deletes(r.due[i], name)
  {
  }

  lemma {:induction false} RestNewest(r: Registry, events: seq<Event>, name: string, t: Timer)
    requires Orderly(r) && RestOfTick(events, name) && Newest(r, name, t)
    ensures var u := Run(r, events);
            && (!Threatened(r, name) ==> !Threatened(u, name) && Newest(u, name, t))
            && (Threatened(r, name) ==> Threatened(u, name) || name !in u.timers)
            && (Threatened(u, name) ==> Newest(u, name, t))
  {
    if events != [] {
      hide Threatened, Newest, Step, Orderly;
      var k := |events| - 1;
      assert forall e <- events[..k] :: e in events;
      RestNewest(r, events[..k], name, t);
      RunOrderly(r, events[..k]);
      assert events[k] in events;
      StepNewest(Run(r, events[..k]), events[k], name, t);
    }
  }

  /** A timer registered during a tick is still registered when the tick is over if and only if the tick had no one-shot
      timer of that name left to settle: otherwise the deletion meant for that one takes the new one. */
  lemma RegistrationSurvivesIff(r: Registry, name: string, expiresAt: int, repeatSec: Option<int>, rest: seq<Event>)
    requires Orderly(r) && RestOfTick(rest, name)
    requires Resting(Run(Step(r, RegisterTimer(name, expiresAt, repeatSec)), rest))
    ensures var u := Run(Step(r, RegisterTimer(name, expiresAt, repeatSec)), rest);
            && (!Threatened(r, name) <==> name in u.timers)
            && (name in u.timers ==> u.timers[name] == Timer(r.nextId, expiresAt, repeatSec))
  {
    var s := Step(r, RegisterTimer(name, expiresAt, repeatSec));
    StepOrderly(r, RegisterTimer(name, expiresAt, repeatSec));
    assert Newest(s, name, Timer(r.nextId, expiresAt, repeatSec));
    assert Threatened(s, name) <==> Threatened(r, name);
    hide Step, Orderly;
    RestNewest(s, rest, name, Timer(r.nextId, expiresAt, repeatSec));
  }

  /** The tick's timers it has yet to publish. */
  function Unpublished(r: Registry): seq<Due> {
    if r.awaiting && r.due != [] then r.due[1..] else r.due
  }

  lemma StepPending(r: Registry, e: Event, name: string)
    requires Orderly(r) && !e.Tick?
    ensures |Of(Step(r, e).log, name)| + (if Named(Unpublished(Step(r, e)), name) then 1 else 0)
            == |Of(r.log, name)| + (if Named(Unpublished(r), name) then 1 else 0)
  {
    hide Of, Named;
    if e == Publish && !r.awaiting && r.due != [] {
      OfLast(r.log, Firing(r.due[0].name, r.due[0].timer.expiresAt, r.now), name);
      NamedTail(r.due, name);
      FirstUnnamed(r);
    }
  }

  lemma FirstUnnamed(r: Registry)
    requires Orderly(r) && r.due != []
    ensures !Named(r.due[1..], r.due[0].name)
  {
    FirstIsDistinct(r);
  }

  lemma NamedTail(ds: seq<Due>, name: string)
    requires ds != []
    ensures Named(ds, name) <==> ds[0].name == name || Named(ds[1..], name)
  {
    if Named(ds[1..], name) {
      var i :| 0 <= i < |ds[1..]| && ds[1..][i].name == name;
      assert ds[i + 1].name == name;
    }
    if Named(ds, name) && ds[0].name != name {
      var i :| 0 <= i < |ds| && ds[i].name == name;
      assert ds[1..][i - 1].name == name;
    }
  }

  lemma {:induction false} RestFires(r: Registry, events: seq<Event>, name: string)
    requires Orderly(r) && forall e <- events :: !e.Tick?
    ensures |Of(Run(r, events).log, name)| + (if Named(Unpublished(Run(r, events)), name) then 1 else 0)
            == |Of(r.log, name)| + (if Named(Unpublished(r), name) then 1 else 0)
  {
    hide Step, Orderly, Of, Named;
    if events != [] {
      var k := |events| - 1;
      assert forall e <- events[..k] :: e in events;
      RestFires(r, events[..k], name);
      RunOrderly(r, events[..k]);
      assert events[k] in events;
      StepPending(Run(r, events[..k]), events[k], name);
    }
  }

  /** A tick, once over, has fired a name once if it was registered and had expired, and not at all otherwise,
      whatever is registered and cancelled meanwhile. */
  lemma OncePerTick(r: Registry, now: int, order: seq<string>, name: string, rest: seq<Event>)
    requires Orderly(r) && Resting(r) && Lists(r.timers, now, order)
    requires (forall e <- rest :: !e.Tick?) && Resting(Run(Step(r, Tick(now, order)), rest))
    ensures |Of(Run(Step(r, Tick(now, order)), rest).log, name)|
            == |Of(r.log, name)| + if name in r.timers && r.timers[name].expiresAt <= now then 1 else 0
  {
    hide Of, Orderly;
    var s := Step(r, Tick(now, order));
    StepOrderly(r, Tick(now, order));
    RestFires(s, rest, name);
    if name in r.timers && r.timers[name].expiresAt <= now { ListedIsNamed(r.timers, now, order, name); }
  }

  /** A timer cancelled during a tick still fires in it, once, if and only if the tick had found it expired and not yet
      published it. */
  lemma CancelledStillFiresIff(r: Registry, name: string, rest: seq<Event>)
    requires Orderly(r) && (forall e <- rest :: !e.Tick?) && Resting(Run(Step(r, CancelTimer(name)), rest))
    ensures |Of(Run(Step(r, CancelTimer(name)), rest).log, name)|
        == |Of(r.log, name)| + if Named(Unpublished(r), name) then 1 else 0
  {
    hide Of;
    StepOrderly(r, CancelTimer(name));
    RestFires(Step(r, CancelTimer(name)), rest, name);
  }

  // ---------- The agent ----------

  class Clock {
    var started: bool
    var ended: bool
    var timers: map<string, Timer>
    var nextId: nat
    var now: int
    ghost var due: seq<Due>
    ghost var awaiting: bool
    ghost var log: seq<Firing>

    ghost function State(): Flags
      reads this
    {
      Flags(started, ended)
    }

    ghost function Timers(): Registry
      reads this
    {
      Registry(timers, nextId, now, due, awaiting, log)
    }

    constructor ()
      ensures State() == After([]) && timers == map[] && Resting(Timers()) && Orderly(Timers())
    {
      started, ended, timers, nextId := false, false, map[], 0;
      now, due, awaiting, log := 0, [], false, [];
    }

    method CheckSessionBoundaries(t: Reading) returns (sent: seq<Session>)
      modifies this`started, this`ended
      ensures (State(), sent) == Check(old(State()), t)
    {
      sent := [];
      if t.minute == OPEN_MINUTE && Weekday(t) {
        if !started {
          started, ended := true, false;
          sent := [Start(t.day)];
        }
      } else if t.minute < OPEN_MINUTE {
        started := false;
      }
      if t.minute >= CLOSE_MINUTE && Weekday(t) && !ended && started {
        ended := true;
        sent := [End(t.day)];
      }
    }

    /** The expired timers, collected before any of them is published. */
    method CollectExpired(at: int) returns (expired: seq<Due>)
      requires Resting(Timers())
      modifies this`now, this`due
      ensures due == expired
      ensures exists order :: Lists(timers, at, order) && Timers() == Step(old(Timers()), Tick(at, order))
    {
      var left := set name | name in timers && timers[name].expiresAt <= at;
      ghost var all := left;
      var order: seq<string> := [];
      while left != {}
        invariant left <= all
        invariant forall name :: name in order <==> name in all && name !in left
        invariant forall i, j :: 0 <= i < j < |order| ==> order[i] != order[j]
        decreases |left|
      {
        var name :| name in left;
        order := order + [name];
        left := left - {name};
      }
      assert Lists(timers, at, order);
      expired := Dues(timers, order);
      now, due := at, expired;
      assert Timers() == Step(old(Timers()), Tick(at, order));
    }

    /** One expired timer is published: its firing goes out, and the loop waits. */
    method PublishDue(d: Due) returns (f: Firing)
      requires !awaiting && due != [] && due[0] == d
      modifies this`awaiting, this`log
      ensures Timers() == Step(old(Timers()), Publish) && log == old(log) + [f] && awaiting
    {
      f := Firing(d.name, d.timer.expiresAt, now);
      awaiting, log := true, log + [f];
    }

    /** The publish has returned: the timer is rescheduled, or its name deleted. */
    method SettleDue(d: Due)
      requires awaiting && due != [] && due[0] == d
      modifies this`awaiting, this`due, this`timers
      ensures Timers() == Step(old(Timers()), Settle)
    {
      if d.timer.repeatSec.Some? {
        if d.name in timers && timers[d.name].id == d.timer.id {
          var t := timers[d.name];
          timers := timers[d.name := t.(expiresAt := t.expiresAt + d.timer.repeatSec.value)];
        }
      } else {
        timers := timers - {d.name};
      }
      awaiting, due := false, due[1..];
    }

    method Register(name: string, expiresAt: int, repeatSec: Option<int>)
      modifies this`timers, this`nextId
      ensures Timers() == Step(old(Timers()), RegisterTimer(name, expiresAt, repeatSec))
    {
      timers := timers[name := Timer(nextId, expiresAt, repeatSec)];
      nextId := nextId + 1;
    }

    method Cancel(name: string) returns (existed: bool)
      modifies this`timers
      ensures existed == (name in old(timers)) && Timers() == Step(old(Timers()), CancelTimer(name))
    {
      existed := name in timers;
      timers := timers - {name};
    }
  }
}

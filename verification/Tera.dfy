/** The trade eligibility gate: ten rules over session counters, a sliding window of losses and two pauses.
    Floats are reals; the clock, the account and the universe are inputs of each decision. */
module Tera {
  import opened Text
  import opened Windows

  datatype Config = Config(maxLossPct: real, velLoss: real, velWindow: int, velPause: int, maxTrades: int,
                           maxSymbolPct: real, maxSector: int, maxTheme: int, streakLimit: int, streakPause: int)

  datatype Gate = Gate(dailyPnl: real, streak: int, hold: bool, pdtUsed: int, losses: seq<Loss>,
                       velUntil: Option<int>, coolUntil: Option<int>)

  const NEW_SESSION: Gate := Gate(0.0, 0, false, 0, [], None, None)

  datatype Holding = Holding(symbol: string, entryPrice: real, shares: int)

  /** A universe entry; a missing sector or catalyst is the empty string. */
  datatype Listing = Listing(symbol: string, sector: string, catalyst: string)

  /** What a decision reads from outside; an absent universe is an empty one. */
  datatype Env = Env(symbol: string, equity: real, holdings: seq<Holding>, universe: seq<Listing>, washSale: bool)

  datatype Reason =
    | DailyLossCap | DrawdownVelocity | MaxConcurrentTrades | SymbolConcentration | SectorConcentration
    | CorrelationBucket | ConsecutiveLosses | AnomalyHold | PdtLimit | WashSaleFlag

  datatype Decision = Approved | Rejected(reason: Reason)

  const PDT_MINIMUM_EQUITY := 25_000.0
  const PDT_MAX_DAY_TRADES := 3

  // ---------- Lookups ----------

  function Lower(s: string): (r: string)
    ensures |r| == |s|
  {
    seq(|s|, i requires 0 <= i < |s| => if 'A' <= s[i] <= 'Z' then s[i] - 'A' + 'a' else s[i])
  }

  function SectorOf(universe: seq<Listing>, symbol: string): string {
    if universe == [] then "" else if universe[0].symbol == symbol then universe[0].sector
        else SectorOf(universe[1..], symbol)
  }

  function Theme(l: Listing): string {
    if "theme:" <= l.catalyst then l.catalyst[6..] else l.sector
  }

  function ThemeOf(universe: seq<Listing>, symbol: string): string {
    if universe == [] then "" else if universe[0].symbol == symbol then Theme(universe[0])
        else ThemeOf(universe[1..], symbol)
  }

  function SectorTag(universe: seq<Listing>): string -> string {
    symbol => SectorOf(universe, symbol)
  }

  function ThemeTag(universe: seq<Listing>): string -> string {
    symbol => ThemeOf(universe, symbol)
  }

  function Exposure(hs: seq<Holding>, symbol: string): real {
    if hs == [] then 0.0
    else
      var h := hs[|hs| - 1];
      Exposure(hs[..|hs| - 1], symbol) + if h.symbol == symbol then h.entryPrice * h.shares as real else 0.0
  }

  /** How many holdings the given tag of their symbol equals, ignoring case; an empty tag never does. */
  function TagCount(hs: seq<Holding>, tagOf: string -> string, tag: string): nat {
    if hs == [] then 0
    else
      var own := tagOf(hs[|hs| - 1].symbol);
      TagCount(hs[..|hs| - 1], tagOf, tag) + if own != "" && Lower(own) == Lower(tag) then 1 else 0
  }

  // ----- what the lookups say -----

  /** The same letter, or the two cases of one. */
  predicate SameLetter(c: char, d: char) {
    c == d || ('A' <= c <= 'Z' && d as int == c as int + 32) || ('A' <= d <= 'Z' && c as int == d as int + 32)
  }

  predicate SameText(s: string, t: string) {
    |s| == |t| && forall i :: 0 <= i < |s| ==> SameLetter(s[i], t[i])
  }

  lemma LowerIff(s: string, t: string)
    ensures Lower(s) == Lower(t) <==> SameText(s, t)
  {
    if Lower(s) == Lower(t) {
      assert |s| == |Lower(s)| == |t|;
      forall i | 0 <= i < |s| ensures SameLetter(s[i], t[i]) {
        assert Lower(s)[i] == Lower(t)[i];
      }
    }
    if SameText(s, t) {
      forall i | 0 <= i < |s| ensures Lower(s)[i] == Lower(t)[i] {
        assert SameLetter(s[i], t[i]);
      }
    }
  }

  /** The first listing of the symbol. */
  predicate Lists(universe: seq<Listing>, symbol: string, i: int) {
    0 <= i < |universe| && universe[i].symbol == symbol && forall j :: 0 <= j < i ==> universe[j].symbol != symbol
  }

  /** Sector and theme are those of the first listing of the symbol, the theme being its catalyst when that is marked as
      one and its sector otherwise; a symbol not listed has neither. */
  lemma {:induction false} TagsMean(universe: seq<Listing>, symbol: string)
    ensures forall i :: Lists(universe, symbol, i) ==>
              && SectorTag(universe)(symbol) == universe[i].sector
              && ThemeTag(universe)(symbol) == (if |universe[i].catalyst| >= 6 && universe[i].catalyst[..6] == "theme:"
                                                then universe[i].catalyst[6..] else universe[i].sector)
    ensures (forall l <- universe :: l.symbol != symbol) ==>
              SectorTag(universe)(symbol) == "" && ThemeTag(universe)(symbol) == ""
  {
    if universe != [] {
      TagsMean(universe[1..], symbol);
      TagsFirst(universe, symbol);
      hide Lists, SectorTag, ThemeTag;
      assert universe == [universe[0]] + universe[1..];
      assert forall l <- universe[1..] :: l in universe;
      forall i | Lists(universe, symbol, i)
        ensures if i == 0 then universe[0].symbol == symbol
                else i > 0 && universe[0].symbol != symbol && Lists(universe[1..], symbol, i - 1)
      {
        ListsTail(universe, symbol, i);
      }
    }
  }

  lemma TagsFirst(universe: seq<Listing>, symbol: string)
    requires universe != []
    ensures var l, rest := universe[0], universe[1..];
            if l.symbol != symbol then
              SectorTag(universe)(symbol) == SectorTag(rest)(symbol)
              && ThemeTag(universe)(symbol) == ThemeTag(rest)(symbol)
            else
              SectorTag(universe)(symbol) == l.sector
              && ThemeTag(universe)(symbol) == if |l.catalyst| >= 6 && l.catalyst[..6] == "theme:" then l.catalyst[6..]
                                               else l.sector
  {
  }

  lemma ListsTail(universe: seq<Listing>, symbol: string, i: int)
    requires Lists(universe, symbol, i)
    ensures if i == 0 then universe[0].symbol == symbol
            else i > 0 && universe[0].symbol != symbol && Lists(universe[1..], symbol, i - 1)
  {
  }

  /** What is held of a symbol adds up over any division of the holdings. */
  lemma {:induction false} ExposureAdds(a: seq<Holding>, b: seq<Holding>, symbol: string)
    ensures Exposure(a + b, symbol) == Exposure(a, symbol) + Exposure(b, symbol)
    ensures forall h: Holding ::
              Exposure([h], symbol) == if h.symbol == symbol then h.entryPrice * h.shares as real else 0.0
    decreases |b|
  {
    forall h: Holding
      ensures Exposure([h], symbol) == if h.symbol == symbol then h.entryPrice * h.shares as real else 0.0
    {
      assert [h][..0] == [];
    }
    if b == [] {
      assert a + b == a;
    } else {
      assert (a + b)[..|a + b| - 1] == a + b[..|b| - 1];
      ExposureAdds(a, b[..|b| - 1], symbol);
    }
  }

  lemma {:induction false} TagCountIs(hs: seq<Holding>, tagOf: string -> string, tag: string)
    requires tag != ""
    ensures TagCount(hs, tagOf, tag) == |set i | 0 <= i < |hs| && SameText(tagOf(hs[i].symbol), tag)|
  {
    if hs != [] {
      hide Lower, SameText;
      var init, last := hs[..|hs| - 1], hs[|hs| - 1];
      assert hs == init + [last];
      TagCountIs(init, tagOf, tag);
      LowerIff(tagOf(last.symbol), tag);
      if SameText(tagOf(last.symbol), tag) { SameLength(tagOf(last.symbol), tag); }
      TagLast(init, last, tagOf, tag);
    }
  }

  lemma TagLast(init: seq<Holding>, h: Holding, tagOf: string -> string, tag: string)
    ensures var before := set i | 0 <= i < |init| && SameText(tagOf(init[i].symbol), tag);
            |set i | 0 <= i < |init + [h]| && SameText(tagOf((init + [h])[i].symbol), tag)|
            == |before| + if SameText(tagOf(h.symbol), tag) then 1 else 0
  {
    hide SameText;
    var hs, n := init + [h], |init|;
    var before := set i | 0 <= i < n && SameText(tagOf(init[i].symbol), tag);
    var last := if SameText(tagOf(h.symbol), tag) then {n} else {};
    assert n !in before;
    assert (set i | 0 <= i < |hs| && SameText(tagOf(hs[i].symbol), tag)) == before + last;
  }

  lemma SameLength(s: string, t: string)
    requires t != "" && SameText(s, t)
    ensures s != ""
  {
  }

  /** A concentration rule refuses a tagged symbol when as many holdings as its limit have the same tag, in any case. */
  lemma CrowdedIff(e: Env, tagOf: string -> string, limit: int)
    ensures Crowded(e, tagOf, limit) <==>
              tagOf(e.symbol) != ""
              && |set i | 0 <= i < |e.holdings| && SameText(tagOf(e.holdings[i].symbol), tagOf(e.symbol))| >= limit
  {
    if tagOf(e.symbol) != "" { TagCountIs(e.holdings, tagOf, tagOf(e.symbol)); }
  }

  // ---------- The window of losses ----------

  function Prune(losses: seq<Loss>, cutoff: int): seq<Loss> {
    if losses == [] || losses[0].at >= cutoff then losses else Prune(losses[1..], cutoff)
  }

  function Sum(losses: seq<Loss>): real {
    if losses == [] then 0.0 else Sum(losses[..|losses| - 1]) + losses[|losses| - 1].amount
  }

  // ---------- The decision ----------

  predicate Pausing(until: Option<int>, now: int) {
    until.Some? && now < until.value
  }

  function Velocity(cfg: Config, g: Gate, now: int): real {
    Sum(Prune(g.losses, now - cfg.velWindow))
  }

  /** `_evaluate_all_rules`: the first rule that fails decides, and a failing velocity or streak rule starts its
      pause. */
  function Decide(cfg: Config, g: Gate, e: Env, now: int): (Gate, Decision) {
    if g.dailyPnl <= -(e.equity * cfg.maxLossPct) then (g, Rejected(DailyLossCap))
    else if Pausing(g.velUntil, now) then (g, Rejected(DrawdownVelocity))
    else
      var g1 := g.(losses := Prune(g.losses, now - cfg.velWindow));
      if Sum(g1.losses) > cfg.velLoss then (g1.(velUntil := Some(now + cfg.velPause)), Rejected(DrawdownVelocity))
      else if |e.holdings| >= cfg.maxTrades then (g1, Rejected(MaxConcurrentTrades))
      else if e.equity > 0.0 && Exposure(e.holdings, e.symbol) / e.equity > cfg.maxSymbolPct
          then (g1, Rejected(SymbolConcentration))
      else if Crowded(e, SectorTag(e.universe), cfg.maxSector) then (g1, Rejected(SectorConcentration))
      else if Crowded(e, ThemeTag(e.universe), cfg.maxTheme) then (g1, Rejected(CorrelationBucket))
      else if Pausing(g1.coolUntil, now) then (g1, Rejected(ConsecutiveLosses))
      else if g1.streak >= cfg.streakLimit then (g1.(coolUntil := Some(now + cfg.streakPause)),
          Rejected(ConsecutiveLosses))
      else if g1.hold then (g1, Rejected(AnomalyHold))
      else if e.equity < PDT_MINIMUM_EQUITY && g1.pdtUsed >= PDT_MAX_DAY_TRADES then (g1, Rejected(PdtLimit))
      else if e.washSale then (g1, Rejected(WashSaleFlag))
      else (g1, Approved)
  }

  /** A tagged symbol whose tag already has its limit of holdings. */
  predicate Crowded(e: Env, tagOf: string -> string, limit: int) {
    tagOf(e.symbol) != "" && TagCount(e.holdings, tagOf, tagOf(e.symbol)) >= limit
  }

  // ---------- Runs ----------

  datatype Event =
    | Signal(now: int, env: Env)
    | Closed(now: int, netPnl: real)
    | Alert(alertType: string)
    | Figures(pnl: Option<real>)
    | ClearHold
    | DayTrade
    | Reset

  /** The gate, every loss of the session so far, and every decision. */
  datatype Trace = Trace(g: Gate, session: seq<Loss>, decisions: seq<Decision>)

  predicate Mentions(s: string, word: string) {
    exists i :: 0 <= i <= |s| && word <= s[i..]
  }

  function CloseTrade(cfg: Config, g: Gate, now: int, netPnl: real): Gate {
    var losses := if netPnl < 0.0 then g.losses + [Loss(now, -netPnl)] else g.losses;
    g.(dailyPnl := g.dailyPnl + netPnl, streak := if netPnl < 0.0 then g.streak + 1 else 0,
       losses := Prune(losses, now - cfg.velWindow))
  }

  function ResetGate(g: Gate): Gate {
    NEW_SESSION.(pdtUsed := g.pdtUsed)
  }

  function Step(cfg: Config, t: Trace, e: Event): Trace {
    match e
    case Signal(now, env) =>
      var (g, d) := Decide(cfg, t.g, env, now);
      Trace(g, t.session, t.decisions + [d])
    case Closed(now, pnl) =>
      Trace(CloseTrade(cfg, t.g, now, pnl), if pnl < 0.0 then t.session + [Loss(now, -pnl)] else t.session, t.decisions)
    case Alert(kind) => if Mentions(Lower(kind), "anomaly") then t.(g := t.g.(hold := true)) else t
    case Figures(pnl) => if pnl.Some? then t.(g := t.g.(dailyPnl := pnl.value)) else t
    case ClearHold => t.(g := t.g.(hold := false))
    case DayTrade => t.(g := t.g.(pdtUsed := t.g.pdtUsed + 1))
    case Reset => Trace(ResetGate(t.g), [], t.decisions)
  }

  function Run(cfg: Config, t: Trace, events: seq<Event>): Trace {
    if events == [] then t else Step(cfg, Run(cfg, t, events[..|events| - 1]), events[|events| - 1])
  }

  // ---------- The pruned window is the whole session's window ----------

  function Clock(e: Event, now: int): int {
    if e.Signal? || e.Closed? then e.now else now
  }

  /** Clock readings from `from` up to `until`, never going back. */
  predicate Ticks(from: int, events: seq<Event>, until: int)
    decreases |events|
  {
    if events == [] then from <= until
    else
      var last := Clock(events[|events| - 1], until);
      last <= until && Ticks(from, events[..|events| - 1], last)
  }

  /** The queue is the tail of the session's losses, and what it dropped is older than the cutoff. */
  predicate IsWindow(session: seq<Loss>, losses: seq<Loss>, cutoff: int) {
    && |losses| <= |session| && losses == session[|session| - |losses|..]
    && (forall i :: 0 <= i < |session| - |losses| ==> session[i].at < cutoff)
  }

  /** Losses in time order, none later than now. */
  predicate Dated(session: seq<Loss>, now: int) {
    && (forall i, j :: 0 <= i < j < |session| ==> session[i].at <= session[j].at)
    && (forall i :: 0 <= i < |session| ==> session[i].at <= now)
  }

  predicate Windowed(cfg: Config, t: Trace, now: int) {
    IsWindow(t.session, t.g.losses, now - cfg.velWindow) && Dated(t.session, now)
  }

  lemma {:induction false} PruneIsTail(losses: seq<Loss>, cutoff: int)
    ensures |Prune(losses, cutoff)| <= |losses|
    ensures var k := |losses| - |Prune(losses, cutoff)|;
            && Prune(losses, cutoff) == losses[k..]
            && (forall i :: 0 <= i < k ==> losses[i].at < cutoff)
            && (k < |losses| ==> losses[k].at >= cutoff)
  {
    if losses != [] && losses[0].at < cutoff {
      PruneIsTail(losses[1..], cutoff);
      var k := |losses| - |Prune(losses, cutoff)|;
      forall i | 0 <= i < k ensures losses[i].at < cutoff {
        if i > 0 { assert losses[i] == losses[1..][i - 1]; }
      }
    }
  }

  lemma WindowPruned(session: seq<Loss>, losses: seq<Loss>, cutoff: int)
    requires IsWindow(session, losses, cutoff)
    ensures IsWindow(session, Prune(losses, cutoff), cutoff)
  {
    PruneIsTail(losses, cutoff);
    hide Prune;
    var k, m := |session| - |losses|, |session| - |Prune(losses, cutoff)|;
    forall i | 0 <= i < m ensures session[i].at < cutoff {
      if i >= k { assert session[i] == losses[i - k]; }
    }
  }

  lemma WindowLater(session: seq<Loss>, losses: seq<Loss>, cutoff: int, later: int)
    requires IsWindow(session, losses, cutoff) && cutoff <= later
    ensures IsWindow(session, losses, later)
  {
  }

  lemma WindowGrows(session: seq<Loss>, losses: seq<Loss>, l: Loss, cutoff: int)
    requires IsWindow(session, losses, cutoff)
    ensures IsWindow(session + [l], losses + [l], cutoff)
  {
  }

  lemma DatedLater(session: seq<Loss>, before: int, now: int)
    requires Dated(session, before) && before <= now
    ensures Dated(session, now)
    ensures forall l: Loss :: l.at == now ==> Dated(session + [l], now)
  {
  }

  lemma DecideLosses(cfg: Config, g: Gate, e: Env, now: int)
    ensures Decide(cfg, g, e, now).0.losses in {g.losses, Prune(g.losses, now - cfg.velWindow)}
  {
    hide Prune, Crowded, Exposure, Sum, Pausing;
  }

  lemma SignalWindowed(cfg: Config, t: Trace, e: Event)
    requires e.Signal? && Windowed(cfg, t, e.now)
    ensures Windowed(cfg, Step(cfg, t, e), e.now)
  {
    hide Prune, Decide, IsWindow, Dated;
    WindowPruned(t.session, t.g.losses, e.now - cfg.velWindow);
    DecideLosses(cfg, t.g, e.env, e.now);
  }

  lemma ClosedWindowed(cfg: Config, t: Trace, e: Event)
    requires e.Closed? && Windowed(cfg, t, e.now)
    ensures Windowed(cfg, Step(cfg, t, e), e.now)
  {
    hide Prune, IsWindow, Dated;
    var l, cutoff := Loss(e.now, -e.netPnl), e.now - cfg.velWindow;
    DatedLater(t.session, e.now, e.now);
    WindowGrows(t.session, t.g.losses, l, cutoff);
    WindowPruned(t.session + [l], t.g.losses + [l], cutoff);
    WindowPruned(t.session, t.g.losses, cutoff);
  }

  lemma StepWindowed(cfg: Config, t: Trace, e: Event, before: int, now: int)
    requires Windowed(cfg, t, before) && before <= Clock(e, now) <= now
    ensures Windowed(cfg, Step(cfg, t, e), now)
  {
    var at := Clock(e, now);
    LaterWindowed(cfg, t, before, at);
    if e.Signal? || e.Closed? {
      hide Step, Windowed;
      if e.Signal? { SignalWindowed(cfg, t, e); } else { ClosedWindowed(cfg, t, e); }
      LaterWindowed(cfg, Step(cfg, t, e), at, now);
    } else if !e.Reset? {
      hide IsWindow, Dated, Mentions;
    }
  }

  lemma {:induction false} RunWindowed(cfg: Config, t: Trace, events: seq<Event>, from: int, now: int)
    requires Windowed(cfg, t, from) && Ticks(from, events, now)
    ensures Windowed(cfg, Run(cfg, t, events), now)
    decreases |events|
  {
    hide Windowed, Step;
    if events == [] {
      LaterWindowed(cfg, t, from, now);
    } else {
      var k := |events| - 1;
      RunWindowed(cfg, t, events[..k], from, Clock(events[k], now));
      StepWindowed(cfg, Run(cfg, t, events[..k]), events[k], Clock(events[k], now), now);
    }
  }

  lemma LaterWindowed(cfg: Config, t: Trace, from: int, now: int)
    requires Windowed(cfg, t, from) && from <= now
    ensures Windowed(cfg, t, now)
  {
    hide IsWindow, Dated;
    WindowLater(t.session, t.g.losses, from - cfg.velWindow, now - cfg.velWindow);
    DatedLater(t.session, from, now);
  }

  lemma {:induction false} LostAllOrNone(ls: seq<Loss>, cutoff: int)
    ensures (forall i :: 0 <= i < |ls| ==> ls[i].at < cutoff) ==> LostSince(ls, cutoff) == 0.0
    ensures (forall i :: 0 <= i < |ls| ==> ls[i].at >= cutoff) ==> LostSince(ls, cutoff) == Sum(ls)
  {
    if ls != [] { LostAllOrNone(ls[..|ls| - 1], cutoff); }
  }

  /** At every moment of every run whose clock does not go back, the money the queue shows as lost in the window is what
      the whole session lost in it. */
  lemma WindowIsExact(cfg: Config, g: Gate, events: seq<Event>, from: int, now: int)
    requires g.losses == [] && Ticks(from, events, now)
    ensures var t := Run(cfg, Trace(g, [], []), events);
            Velocity(cfg, t.g, now) == LostSince(t.session, now - cfg.velWindow)
  {
    hide Run, Prune, IsWindow, Dated, Ticks, LostSince, Sum;
    var start := Trace(g, [], []);
    var t := Run(cfg, start, events);
    StartWindowed(cfg, g, from);
    RunWindowed(cfg, start, events, from, now);
    WindowPruned(t.session, t.g.losses, now - cfg.velWindow);
    PruneIsTail(t.g.losses, now - cfg.velWindow);
    WindowSum(t.session, Prune(t.g.losses, now - cfg.velWindow), now - cfg.velWindow);
  }

  lemma StartWindowed(cfg: Config, g: Gate, from: int)
    requires g.losses == []
    ensures Windowed(cfg, Trace(g, [], []), from)
  {
  }

  lemma WindowSum(session: seq<Loss>, kept: seq<Loss>, cutoff: int)
    requires IsWindow(session, kept, cutoff) && (kept != [] ==> kept[0].at >= cutoff)
    requires exists now :: Dated(session, now)
    ensures Sum(kept) == LostSince(session, cutoff)
  {
    var k := |session| - |kept|;
    assert session[..k] + kept == session;
    LostAppend(session[..k], kept, cutoff);
    LostAllOrNone(session[..k], cutoff);
    forall i | 0 <= i < |kept| ensures kept[i].at >= cutoff {
      assert session[k] == kept[0] && session[k + i] == kept[i];
    }
    LostAllOrNone(kept, cutoff);
  }

  // ---------- The ten rules ----------

  /** Whether a rule, or the pause it started, stands against the signal. `lost` is the money lost in the window. */
  predicate Fails(cfg: Config, g: Gate, e: Env, now: int, lost: real, r: Reason) {
    match r
    case DailyLossCap => g.dailyPnl <= -(e.equity * cfg.maxLossPct)
    case DrawdownVelocity => Pausing(g.velUntil, now) || lost > cfg.velLoss
    case MaxConcurrentTrades => |e.holdings| >= cfg.maxTrades
    case SymbolConcentration => e.equity > 0.0 && Exposure(e.holdings, e.symbol) / e.equity > cfg.maxSymbolPct
    case SectorConcentration => Crowded(e, SectorTag(e.universe), cfg.maxSector)
    case CorrelationBucket => Crowded(e, ThemeTag(e.universe), cfg.maxTheme)
    case ConsecutiveLosses => Pausing(g.coolUntil, now) || g.streak >= cfg.streakLimit
    case AnomalyHold => g.hold
    case PdtLimit => e.equity < 25_000.0 && g.pdtUsed >= 3
    case WashSaleFlag => e.washSale
  }

  /** The order of severity in which the rules are tried. */
  function Rank(r: Reason): nat {
    match r
    case DailyLossCap => 0 case DrawdownVelocity => 1 case MaxConcurrentTrades => 2 case SymbolConcentration => 3
    case SectorConcentration => 4 case CorrelationBucket => 5 case ConsecutiveLosses => 6 case AnomalyHold => 7
    case PdtLimit => 8 case WashSaleFlag => 9
  }

  /** A signal is approved if and only if none of the ten rules and neither pause stands against it; otherwise the
      reason given is the first failing rule in order of severity. The velocity rule counts every loss of the
      session. */
  lemma ApprovedIff(cfg: Config, g: Gate, events: seq<Event>, from: int, now: int, e: Env)
    requires g.losses == [] && Ticks(from, events, now)
    ensures var t := Run(cfg, Trace(g, [], []), events);
            var lost, d := LostSince(t.session, now - cfg.velWindow), Decide(cfg, t.g, e, now).1;
            && (d == Approved <==> forall r :: !Fails(cfg, t.g, e, now, lost, r))
            && (d.Rejected? ==> Fails(cfg, t.g, e, now, lost, d.reason)
                                && forall r :: Fails(cfg, t.g, e, now, lost, r) && r != d.reason ==>
                                     Rank(d.reason) < Rank(r))
  {
    hide Run, Crowded, Exposure, Prune, Sum, Pausing, LostSince;
    WindowIsExact(cfg, g, events, from, now);
    var t := Run(cfg, Trace(g, [], []), events);
    FirstFailure(cfg, t.g, e, now);
  }

  lemma FirstFailure(cfg: Config, g: Gate, e: Env, now: int)
    ensures var lost, d := Velocity(cfg, g, now), Decide(cfg, g, e, now).1;
            && (d == Approved <==> forall r :: !Fails(cfg, g, e, now, lost, r))
            && (d.Rejected? ==> Fails(cfg, g, e, now, lost, d.reason)
                                && forall r :: Fails(cfg, g, e, now, lost, r) && r != d.reason ==>
                                     Rank(d.reason) < Rank(r))
  {
    hide Crowded, Exposure, Prune, Sum, Pausing;
    var lost, d := Velocity(cfg, g, now), Decide(cfg, g, e, now).1;
    if d.Rejected? { assert Fails(cfg, g, e, now, lost, d.reason); }
    forall r | Fails(cfg, g, e, now, lost, r)
      ensures d.Rejected? && (r != d.reason ==> Rank(d.reason) < Rank(r))
    {
    }
  }

  // ---------- The counters, from the events ----------

  /** The result of the trades closed. */
  function NetOf(events: seq<Event>): real {
    if events == [] then 0.0
    else
      var e := events[|events| - 1];
      NetOf(events[..|events| - 1]) + if e.Closed? then e.netPnl else 0.0
  }

  predicate Undisturbed(events: seq<Event>) {
    forall e <- events :: !e.Reset? && (e.Figures? ==> e.pnl == None)
  }

  lemma {:induction false} ResultIsNet(cfg: Config, t: Trace, events: seq<Event>)
    requires Undisturbed(events)
    ensures Run(cfg, t, events).g.dailyPnl == t.g.dailyPnl + NetOf(events)
  {
    hide Crowded, Exposure, Prune, Sum, Pausing, Mentions;
    if events != [] {
      var k := |events| - 1;
      assert forall e <- events[..k] :: e in events;
      ResultIsNet(cfg, t, events[..k]);
      assert events[k] in events;
    }
  }

  /** From the session's start, and again from the last figures the supervisor sent, the loss cap rejects a signal
      exactly when what the trades since have made brings the day to a loss of the cap. */
  lemma LossCapIff(cfg: Config, t: Trace, figures: Option<real>, events: seq<Event>, e: Env, now: int)
    requires Undisturbed(events)
    ensures Decide(cfg, Run(cfg, Step(cfg, t, Reset), events).g, e, now).1 == Rejected(DailyLossCap)
            <==> NetOf(events) <= -(e.equity * cfg.maxLossPct)
    ensures figures.Some? ==>
              (Decide(cfg, Run(cfg, Step(cfg, t, Figures(figures)), events).g, e, now).1 == Rejected(DailyLossCap)
               <==> figures.value + NetOf(events) <= -(e.equity * cfg.maxLossPct))
  {
    hide *;
    ResultIsNet(cfg, Step(cfg, t, Reset), events);
    Restarts(cfg, t, figures);
    CapRejects(cfg, Run(cfg, Step(cfg, t, Reset), events).g, e, now);
    if figures.Some? {
      ResultIsNet(cfg, Step(cfg, t, Figures(figures)), events);
      CapRejects(cfg, Run(cfg, Step(cfg, t, Figures(figures)), events).g, e, now);
    }
  }

  lemma Restarts(cfg: Config, t: Trace, figures: Option<real>)
    ensures Step(cfg, t, Reset).g.dailyPnl == 0.0
    ensures figures.Some? ==> Step(cfg, t, Figures(figures)).g.dailyPnl == figures.value
  {
  }

  lemma CapRejects(cfg: Config, g: Gate, e: Env, now: int)
    ensures Decide(cfg, g, e, now).1 == Rejected(DailyLossCap) <==> g.dailyPnl <= -(e.equity * cfg.maxLossPct)
  {
    hide Crowded, Exposure, Prune, Sum, Pausing;
  }

  /** A trade that does not lose starts the streak afresh. */
  lemma StreakSinceWin(cfg: Config, t: Trace, now: int, netPnl: real, losing: seq<Event>)
    requires netPnl >= 0.0 && LosingStretch(losing)
    ensures Run(cfg, Step(cfg, t, Closed(now, netPnl)), losing).g.streak == Closes(losing)
  {
    StreakCounts(cfg, Step(cfg, t, Closed(now, netPnl)), losing);
  }

  /** The word occurs in the text, in any case. */
  ghost predicate NamesAnomaly(s: string) {
    exists i :: Occurs(s, i, "anomaly")
  }

  predicate Occurs(s: string, i: int, word: string) {
    0 <= i && i + |word| <= |s| && SameText(s[i..i + |word|], word)
  }

  lemma MentionsIff(s: string)
    ensures Mentions(Lower(s), "anomaly") <==> NamesAnomaly(s)
  {
    hide SameText, Lower;
    forall i | 0 <= i <= |s| ensures "anomaly" <= Lower(s)[i..] <==> Occurs(s, i, "anomaly") {
      if i + 7 <= |s| { OccursLower(s, i); }
    }
  }

  lemma OccursLower(s: string, i: nat)
    requires i + 7 <= |s|
    ensures "anomaly" <= Lower(s)[i..] <==> SameText(s[i..i + 7], "anomaly")
  {
    hide SameText;
    LowerIff(s[i..i + 7], "anomaly");
    assert Lower(s[i..i + 7]) == Lower(s)[i..i + 7] == Lower(s)[i..][..7];
    assert Lower("anomaly") == "anomaly";
  }

  /** Event i is an alert that names an anomaly, in any case, and no hold clearing or reset follows it. */
  ghost predicate HoldsFrom(events: seq<Event>, i: int) {
    0 <= i < |events| && events[i].Alert? && NamesAnomaly(events[i].alertType)
    && NotReleased(events, i + 1)
  }

  predicate NotReleased(events: seq<Event>, from: nat) {
    forall j :: from <= j < |events| ==> !events[j].ClearHold? && !events[j].Reset?
  }

  /** The hold stands exactly when some alert naming an anomaly has not been cleared or reset since; and the day trades
      are counted through every reset. */
  lemma {:induction false} HoldIff(cfg: Config, t: Trace, events: seq<Event>)
    ensures Run(cfg, t, events).g.hold <==>
              (exists i :: HoldsFrom(events, i)) || (t.g.hold && NotReleased(events, 0))
    ensures Run(cfg, t, events).g.pdtUsed == t.g.pdtUsed + |set i | 0 <= i < |events| && events[i].DayTrade?|
  {
    hide Crowded, Exposure, Prune, Sum, Pausing, Mentions;
    if events != [] {
      var init, e := events[..|events| - 1], events[|events| - 1];
      assert events == init + [e];
      HoldIff(cfg, t, init);
      HoldLast(init, e);
      DayTradeLast(init, e);
      if e.Alert? { MentionsIff(e.alertType); }
      hide HoldsFrom, NotReleased, NamesAnomaly, Lower;
    }
  }

  lemma HoldLast(init: seq<Event>, e: Event)
    ensures (exists i :: HoldsFrom(init + [e], i)) <==>
              (e.Alert? && NamesAnomaly(e.alertType))
              || (!e.ClearHold? && !e.Reset? && exists i :: HoldsFrom(init, i))
    ensures NotReleased(init + [e], 0) <==> NotReleased(init, 0) && !e.ClearHold? && !e.Reset?
  {
    hide NamesAnomaly;
    var events, n := init + [e], |init|;
    assert events[n] == e && forall j :: 0 <= j < n ==> events[j] == init[j];
    if i :| HoldsFrom(events, i) {
      if i < n { assert HoldsFrom(init, i) && !events[n].ClearHold? && !events[n].Reset?; }
    }
    if e.Alert? && NamesAnomaly(e.alertType) { assert HoldsFrom(events, n); }
    if !e.ClearHold? && !e.Reset? && exists i :: HoldsFrom(init, i) {
      var i :| HoldsFrom(init, i);
      assert HoldsFrom(events, i);
    }
  }

  lemma DayTradeLast(init: seq<Event>, e: Event)
    ensures var before := set i | 0 <= i < |init| && init[i].DayTrade?;
            |set i | 0 <= i < |init + [e]| && (init + [e])[i].DayTrade?| == |before| + if e.DayTrade? then 1 else 0
  {
    var events, n := init + [e], |init|;
    var before := set i | 0 <= i < n && init[i].DayTrade?;
    var last := if e.DayTrade? then {n} else {};
    assert n !in before;
    assert (set i | 0 <= i < |events| && events[i].DayTrade?) == before + last;
  }

  // ---------- Lockout and pause ----------

  predicate AllRejected(ds: seq<Decision>) {
    forall d <- ds :: d.Rejected?
  }

  function Closes(events: seq<Event>): nat {
    if events == [] then 0 else Closes(events[..|events| - 1]) + if events[|events| - 1].Closed? then 1 else 0
  }

  /** A stretch in which every closed trade loses and the session is not reset. */
  predicate LosingStretch(events: seq<Event>) {
    forall e <- events :: !e.Reset? && (e.Closed? ==> e.netPnl < 0.0)
  }

  lemma {:induction false} StreakCounts(cfg: Config, t: Trace, events: seq<Event>)
    requires LosingStretch(events)
    ensures Run(cfg, t, events).g.streak == t.g.streak + Closes(events)
  {
    hide Crowded, Exposure, Prune, Sum, Pausing, Mentions;
    if events != [] {
      var k := |events| - 1;
      assert forall e <- events[..k] :: e in events;
      StreakCounts(cfg, t, events[..k]);
      assert events[k] in events;
    }
  }

  lemma {:induction false} RunAppend(cfg: Config, t: Trace, a: seq<Event>, b: seq<Event>)
    ensures Run(cfg, t, a + b) == Run(cfg, Run(cfg, t, a), b)
    decreases |b|
  {
    hide Step;
    if b == [] {
      assert a + b == a;
    } else {
      assert (a + b)[..|a + b| - 1] == a + b[..|b| - 1];
      RunAppend(cfg, t, a, b[..|b| - 1]);
    }
  }

  /** After the threshold loss in a row every signal is rejected, before and after the cooldown, until a trade closes
      without a loss or the session is reset. */
  lemma ThresholdLocksOut(cfg: Config, t: Trace, losing: seq<Event>, later: seq<Event>)
    requires LosingStretch(losing) && LosingStretch(later)
    requires t.g.streak >= 0 && Closes(losing) >= cfg.streakLimit
    ensures var u, v := Run(cfg, t, losing), Run(cfg, t, losing + later);
            u.decisions <= v.decisions && AllRejected(v.decisions[|u.decisions|..])
  {
    hide Run;
    StreakCounts(cfg, t, losing);
    RunAppend(cfg, t, losing, later);
    LockedOut(cfg, Run(cfg, t, losing), later);
  }

  lemma {:induction false} LockedOut(cfg: Config, t: Trace, events: seq<Event>)
    requires t.g.streak >= cfg.streakLimit && LosingStretch(events)
    ensures var u := Run(cfg, t, events);
            && u.g.streak >= cfg.streakLimit
            && t.decisions <= u.decisions && AllRejected(u.decisions[|t.decisions|..])
  {
    hide Crowded, Exposure, Prune, Sum, Pausing, Mentions;
    if events != [] {
      var k := |events| - 1;
      assert forall e <- events[..k] :: e in events;
      LockedOut(cfg, t, events[..k]);
      var before, e := Run(cfg, t, events[..k]), events[k];
      assert e in events;
      if e.Signal? {
        StreakRejects(cfg, before.g, e.env, e.now);
        assert Run(cfg, t, events).decisions[|t.decisions|..]
            == before.decisions[|t.decisions|..] + [Decide(cfg, before.g, e.env, e.now).1];
      }
    }
  }

  lemma StreakRejects(cfg: Config, g: Gate, e: Env, now: int)
    requires g.streak >= cfg.streakLimit
    ensures Decide(cfg, g, e, now).1.Rejected? && Decide(cfg, g, e, now).0.streak == g.streak
  {
    hide Crowded, Exposure, Prune, Sum, Pausing;
  }

  /** The velocity pause started at some moment: only losses up to it, and the pause or a reset since. */
  predicate PauseStarted(cfg: Config, t: Trace, at: int) {
    && (t.g.velUntil == None || t.g.velUntil == Some(at + cfg.velPause))
    && (forall l <- t.g.losses :: l.at <= at)
  }

  lemma {:induction false} PruneAll(losses: seq<Loss>, at: int, cutoff: int)
    requires forall l <- losses :: l.at <= at
    ensures forall l <- Prune(losses, cutoff) :: l.at <= at
    ensures at < cutoff ==> Prune(losses, cutoff) == []
  {
    if losses != [] {
      assert losses[0] in losses;
      assert forall l <- losses[1..] :: l in losses;
      PruneAll(losses[1..], at, cutoff);
    }
  }

  /** A velocity pause longer than its window ends for good: with no new loss it never starts again, and once it is over
      the velocity rule passes. */
  lemma {:induction false} PauseEnds(cfg: Config, t: Trace, events: seq<Event>, at: int, now: int)
    requires PauseStarted(cfg, t, at) && (t.g.velUntil == None ==> t.g.losses == [])
    requires cfg.velPause > cfg.velWindow && cfg.velLoss >= 0.0
    requires forall e <- events :: e.Closed? ==> e.netPnl >= 0.0
    ensures var g := Run(cfg, t, events).g;
            && PauseStarted(cfg, Run(cfg, t, events), at) && (g.velUntil == None ==> g.losses == [])
            && (now >= at + cfg.velPause ==> !Pausing(g.velUntil, now) && Velocity(cfg, g, now) == 0.0)
  {
    if events != [] {
      var k := |events| - 1;
      assert forall e <- events[..k] :: e in events;
      PauseEnds(cfg, t, events[..k], at, now);
      assert events[k] in events;
      PauseStep(cfg, Run(cfg, t, events[..k]), events[k], at);
    }
    PruneAll(Run(cfg, t, events).g.losses, at, now - cfg.velWindow);
  }

  lemma PauseStep(cfg: Config, t: Trace, e: Event, at: int)
    requires PauseStarted(cfg, t, at) && (t.g.velUntil == None ==> t.g.losses == [])
    requires cfg.velPause > cfg.velWindow && cfg.velLoss >= 0.0 && (e.Closed? ==> e.netPnl >= 0.0)
    ensures PauseStarted(cfg, Step(cfg, t, e), at)
    ensures Step(cfg, t, e).g.velUntil == None ==> Step(cfg, t, e).g.losses == []
  {
    if e.Signal? || e.Closed? { PruneAll(t.g.losses, at, e.now - cfg.velWindow); }
    if e.Signal? { PrunedSum(cfg, t.g, at, e.now); }
    hide Crowded, Exposure, Mentions, Prune, Sum;
  }

  lemma PrunedSum(cfg: Config, g: Gate, at: int, now: int)
    requires forall l <- g.losses :: l.at <= at
    requires cfg.velPause > cfg.velWindow
    requires g.velUntil == Some(at + cfg.velPause) || g.losses == []
    ensures Pausing(g.velUntil, now) || Velocity(cfg, g, now) == 0.0
  {
    PruneAll(g.losses, at, now - cfg.velWindow);
  }

  // ---------- The agent ----------

  class Agent {
    const cfg: Config
    var dailyPnl: real
    var streak: int
    var hold: bool
    var pdtUsed: int
    var losses: seq<Loss>
    var velUntil: Option<int>
    var coolUntil: Option<int>

    ghost function State(): Gate
      reads this
    {
      Gate(dailyPnl, streak, hold, pdtUsed, losses, velUntil, coolUntil)
    }

    constructor (cfg: Config)
      ensures this.cfg == cfg && State() == NEW_SESSION
    {
      this.cfg := cfg;
      dailyPnl, streak, hold, pdtUsed, losses, velUntil, coolUntil := 0.0, 0, false, 0, [], None, None;
    }

    method PruneLosses(now: int)
      modifies this`losses
      ensures losses == Prune(old(losses), now - cfg.velWindow)
    {
      var cutoff := now - cfg.velWindow;
      while |losses| > 0 && losses[0].at < cutoff
        invariant Prune(losses, cutoff) == Prune(old(losses), cutoff)
        decreases |losses|
      {
        losses := losses[1..];
      }
    }

    method IsCrowded(e: Env, tagOf: string -> string, limit: int) returns (crowded: bool)
      ensures crowded == Crowded(e, tagOf, limit)
    {
      var tag := tagOf(e.symbol);
      if tag == "" { return false; }
      var count := 0;
      for i := 0 to |e.holdings|
        invariant count == TagCount(e.holdings[..i], tagOf, tag)
      {
        assert e.holdings[..i + 1][..i] == e.holdings[..i];
        var own := tagOf(e.holdings[i].symbol);
        if own != "" && Lower(own) == Lower(tag) { count := count + 1; }
      }
      assert e.holdings[..|e.holdings|] == e.holdings;
      return count >= limit;
    }

    method HandleTradeClosed(now: int, netPnl: real)
      modifies this
      ensures State() == CloseTrade(cfg, old(State()), now, netPnl)
    {
      dailyPnl := dailyPnl + netPnl;
      if netPnl < 0.0 {
        streak := streak + 1;
        losses := losses + [Loss(now, -netPnl)];
      } else {
        streak := 0;
      }
      PruneLosses(now);
    }

    method EvaluateAllRules(e: Env, now: int) returns (d: Decision)
      modifies this
      ensures (State(), d) == Decide(cfg, old(State()), e, now)
    {
      hide Prune, Sum, Exposure, Crowded, SectorTag, ThemeTag;
      if dailyPnl <= -(e.equity * cfg.maxLossPct) { return Rejected(DailyLossCap); }
      if velUntil.Some? && now < velUntil.value { return Rejected(DrawdownVelocity); }
      PruneLosses(now);
      if Sum(losses) > cfg.velLoss {
        velUntil := Some(now + cfg.velPause);
        return Rejected(DrawdownVelocity);
      }
      if |e.holdings| >= cfg.maxTrades { return Rejected(MaxConcurrentTrades); }
      if e.equity > 0.0 && Exposure(e.holdings,
          e.symbol) / e.equity > cfg.maxSymbolPct { return Rejected(SymbolConcentration); }
      var crowdedSector := IsCrowded(e, SectorTag(e.universe), cfg.maxSector);
      if crowdedSector { return Rejected(SectorConcentration); }
      var crowdedTheme := IsCrowded(e, ThemeTag(e.universe), cfg.maxTheme);
      if crowdedTheme { return Rejected(CorrelationBucket); }
      if coolUntil.Some? && now < coolUntil.value { return Rejected(ConsecutiveLosses); }
      if streak >= cfg.streakLimit {
        coolUntil := Some(now + cfg.streakPause);
        return Rejected(ConsecutiveLosses);
      }
      if hold { return Rejected(AnomalyHold); }
      if e.equity < PDT_MINIMUM_EQUITY && pdtUsed >= PDT_MAX_DAY_TRADES { return Rejected(PdtLimit); }
      if e.washSale { return Rejected(WashSaleFlag); }
      return Approved;
    }

    method ResetForNewSession()
      modifies this
      ensures State() == ResetGate(old(State()))
    {
      dailyPnl, streak, hold, losses, velUntil, coolUntil := 0.0, 0, false, [], None, None;
    }
  }
}

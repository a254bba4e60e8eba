/** The session state machine: its transition table, the approval gate and the bounded history. */
module SessionStateMachine {
  import opened Windows

  datatype Session =
    | Booting | WaitingForDataIntegrity | WaitingForRegime | Active | PausedCooldown
    | HaltedRisk | HaltedAnomaly | HaltedReconciliation | Shutdown

  /** The permitted-transition table. */
  function Permitted(s: Session): set<Session> {
    match s
    case Booting => {WaitingForDataIntegrity, Shutdown}
    case WaitingForDataIntegrity => {WaitingForRegime, HaltedAnomaly, Shutdown}
    case WaitingForRegime => {Active, HaltedAnomaly, Shutdown}
    case Active => {PausedCooldown, HaltedRisk, HaltedAnomaly, HaltedReconciliation, Shutdown}
    case PausedCooldown => {Active, HaltedRisk, HaltedAnomaly, Shutdown}
    case HaltedRisk => {Active, Shutdown}
    case HaltedAnomaly => {Active, Shutdown}
    case HaltedReconciliation => {Active, Shutdown}
    case Shutdown => {}
  }

  predicate NeedsApproval(s: Session) {
    s == HaltedRisk || s == HaltedAnomaly || s == HaltedReconciliation
  }

  datatype Outcome = NoOp | Moved | NotPermitted | NotApproved

  /** What `transition_to` does; an absent approver is the empty string. */
  function Attempt(s: Session, to: Session, approvedBy: string): Outcome {
    if to == s then NoOp
    else if to !in Permitted(s) then NotPermitted
    else if NeedsApproval(s) && to == Active && approvedBy == "" then NotApproved
    else Moved
  }

  /** The state after an attempt, refused or not. */
  function Move(s: Session, to: Session, approvedBy: string): Session {
    if Attempt(s, to, approvedBy) == Moved then to else s
  }

  datatype Entry = Entry(origin: Session, to: Session, approvedBy: string)

  /** A transition the machine may make. */
  predicate Legal(e: Entry) {
    e.to in Permitted(e.origin) && (NeedsApproval(e.origin) && e.to == Active ==> e.approvedBy != "")
  }

  /** Legal transitions, each starting where the one before it ended, the last one ending in `now`. */
  predicate Chain(log: seq<Entry>, now: Session) {
    && (forall i :: 0 <= i < |log| ==> Legal(log[i]))
    && (forall i :: 0 < i < |log| ==> log[i].origin == log[i - 1].to)
    && (log != [] ==> log[|log| - 1].to == now)
  }

  /** The transition log of a machine since it was created. */
  predicate Life(log: seq<Entry>, now: Session) {
    Chain(log, now) && if log == [] then now == Booting else log[0].origin == Booting
  }

  lemma MovedIsLegal(s: Session, to: Session, approver: string)
    requires Attempt(s, to, approver) == Moved
    ensures Legal(Entry(s, to, approver))
  {
  }

  lemma LifeExtends(log: seq<Entry>, now: Session, e: Entry)
    requires Life(log, now) && Legal(e) && e.origin == now
    ensures Life(log + [e], e.to)
  {
  }

  lemma ChainPrefix(log: seq<Entry>, now: Session, k: nat)
    requires Chain(log, now) && 0 < k <= |log|
    ensures Chain(log[..k], log[k - 1].to)
  {
  }

  /** Nothing follows a shutdown. */
  lemma ShutdownIsTerminal(log: seq<Entry>, now: Session, i: nat)
    requires Chain(log, now) && i < |log| && log[i].to == Shutdown
    ensures i == |log| - 1 && now == Shutdown
  {
    assert i + 1 < |log| ==> Legal(log[i + 1]);
  }

  /** Between entering a halted state and the next time trading is permitted, someone named approved it. */
  lemma {:induction false} HaltNeedsApproval(log: seq<Entry>, now: Session, i: nat)
    requires Chain(log, now) && i < |log| && NeedsApproval(log[i].to) && now == Active
    ensures i + 1 < |log| && log[i + 1].origin == log[i].to && log[i + 1].to == Active && log[i + 1].approvedBy != ""
  {
    assert i + 1 < |log|;
    assert Legal(log[i + 1]);
    if log[i + 1].to == Shutdown { ShutdownIsTerminal(log, now, i + 1); }
  }

  /** A step that leaves a regime assessment, or an anomaly halt that someone named overrode. */
  predicate Earns(e: Entry) {
    e.origin == WaitingForRegime || (e.origin == HaltedAnomaly && e.approvedBy != "")
  }

  /** Trading, and what is only reached from trading, takes a regime assessment or a human overriding an anomaly
      halt. */
  lemma {:induction false} ActiveIsEarned(log: seq<Entry>, now: Session)
    requires Life(log, now) && now in {Active, PausedCooldown, HaltedRisk, HaltedReconciliation}
    ensures exists i :: 0 <= i < |log| && Earns(log[i])
    decreases |log|
  {
    var k := |log| - 1;
    assert Legal(log[k]);
    if !Earns(log[k]) {
      assert k > 0;
      ChainPrefix(log, now, k);
      ActiveIsEarned(log[..k], log[k - 1].to);
      var i :| 0 <= i < k && Earns(log[..k][i]);
      assert Earns(log[i]);
    }
  }

  /** The override is real: three transitions trade without any regime assessment. */
  lemma RegimeCanBeSkipped()
    ensures var log := [Entry(Booting, WaitingForDataIntegrity, ""), Entry(WaitingForDataIntegrity, HaltedAnomaly, ""),
                        Entry(HaltedAnomaly, Active, "ops")];
            Life(log, Active) && forall i :: 0 <= i < |log| ==> log[i].origin != WaitingForRegime
  {
    assert Legal(Entry(Booting, WaitingForDataIntegrity, ""));
    assert Legal(Entry(WaitingForDataIntegrity, HaltedAnomaly, ""));
    assert Legal(Entry(HaltedAnomaly, Active, "ops"));
  }

  const HISTORY_LIMIT: nat := 50

  class Machine {
    var state: Session
    var previous: Session
    var reason: string
    var approvedBy: string
    var history: seq<Entry>
    ghost var log: seq<Entry>

    /** The history is the tail of a legal life that leads to the present state. */
    ghost predicate Valid()
      reads this
    {
      Life(log, state) && history == Kept(log, 50)
    }

    constructor ()
      ensures Valid() && state == Booting && log == []
    {
      state, previous, reason, approvedBy, history := Booting, Booting, "System startup", "", [];
      log := [];
    }

    method TransitionTo(to: Session, why: string, approver: string) returns (outcome: Outcome)
      requires Valid()
      modifies this
      ensures Valid()
      ensures outcome == Attempt(old(state), to, approver) && state == Move(old(state), to, approver)
      ensures log == if outcome == Moved then old(log) + [Entry(old(state), to, approver)] else old(log)
      ensures outcome == Moved ==> reason == why && previous == old(state)
                                   && approvedBy == if approver != "" then approver else old(approvedBy)
      ensures outcome != Moved ==> reason == old(reason) && previous == old(previous) && approvedBy == old(approvedBy)
    {
      hide Legal, Life, Permitted, NeedsApproval, Kept;
      if to == state { return NoOp; }
      if to !in Permitted(state) { return NotPermitted; }
      if NeedsApproval(state) && to == Active && approver == "" { return NotApproved; }
      var entry := Entry(state, to, approver);
      MovedIsLegal(state, to, approver);
      LifeExtends(log, state, entry);
      KeptGrows(log, entry, HISTORY_LIMIT);
      previous, state, reason := state, to, why;
      if approver != "" { approvedBy := approver; }
      log := log + [entry];
      assert history != [] ==> (history + [entry])[1..] == history[1..] + [entry];
      history := history + [entry];
      if |history| > HISTORY_LIMIT { history := history[1..]; }
      return Moved;
    }

    /** Trading is permitted in one state only, and its history shows how that state was earned. */
    method IsTradingPermitted() returns (permitted: bool)
      requires Valid()
      ensures permitted <==> state == Active
      ensures permitted ==> exists i :: 0 <= i < |log| && Earns(log[i])
      ensures permitted ==> forall i :: 0 <= i < |log| && NeedsApproval(log[i].to) ==>
                                          i + 1 < |log| && log[i + 1].to == Active && log[i + 1].approvedBy != ""
    {
      permitted := state == Active;
      if permitted {
        ActiveIsEarned(log, state);
        forall i | 0 <= i < |log| && NeedsApproval(log[i].to)
          ensures i + 1 < |log| && log[i + 1].to == Active && log[i + 1].approvedBy != ""
        {
          HaltNeedsApproval(log, state, i);
        }
      }
    }
  }
}

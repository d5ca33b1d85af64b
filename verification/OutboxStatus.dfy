/** When a redemption shows how its webhook event ended. The outbox row and the redemption row are
    written one after the other without a transaction, so the second may be missing or late. */
module OutboxStatus {
  import opened Base
  import opened Backoff
  import opened OutboxProtocol
  import opened OutboxProof
  import opened OutboxTheorems

  // ----- The reports that reach the redemption -----

  /** The step writes to the redemption whose current event is e. */
  predicate Tells(s: State, a: Action, e: nat) {
    && a.Report? && a.token in s.jobs
    && var j := s.jobs[a.token];
    && j.phase.Reporting? && j.event == e && j.redemption in s.db.hooks && s.db.hooks[j.redemption].event == Some(e)
  }

  function Told(s: State, a: Action, e: nat): (status: Status)
    requires Tells(s, a, e)
  {
    s.jobs[a.token].phase.status
  }

  /** The last report about e among the first n steps. */
  ghost function LastReport(c: Config, states: seq<State>, actions: seq<Action>, e: nat, n: nat): (r: Option<Status>)
    requires IsRun(c, states, actions) && n <= |actions|
  {
    if n == 0 then None
    else if Tells(states[n - 1], actions[n - 1], e) then Some(Told(states[n - 1], actions[n - 1], e))
    else LastReport(c, states, actions, e, n - 1)
  }

  lemma {:induction false} NoReportBeforeEvent(c: Config, states: seq<State>, actions: seq<Action>, e: nat, n: nat)
    requires IsRun(c, states, actions) && n <= |actions| && e >= states[n].nextEvent
    ensures LastReport(c, states, actions, e, n) == None
  {
    if n > 0 {
      RunKeepsInv(c, states, actions, n - 1);
      assert StepAt(c, states, actions, n - 1);
      NoReportBeforeEvent(c, states, actions, e, n - 1);
      var s, a := states[n - 1], actions[n - 1];
      assert a.Report? ==> JobOk(s, a.token) && EventOk(s, s.jobs[a.token].event);
    }
  }

  /** One step: the redemption of event e takes on what it is told, or keeps what it shows, or it
      has just got e as its event. */
  lemma StepTells(c: Config, s: State, a: Action, r: nat, e: nat)
    requires Inv(s) && Enabled(s, a)
    requires r in Next(c, s, a).db.hooks && Next(c, s, a).db.hooks[r].event == Some(e)
    ensures var s' := Next(c, s, a);
            if Tells(s, a, e) then s'.db.hooks[r].status == Told(s, a, e)
            else if r in s.db.hooks && s.db.hooks[r].event == Some(e) then s'.db.hooks[r].status == s.db.hooks[r].status
            else e >= s.nextEvent && s'.db.hooks[r].status == Pending
  {
  }

  /** A redemption shows the last report about its current event, and pending before the first. */
  lemma {:induction false} StatusIsLastReport(c: Config, states: seq<State>, actions: seq<Action>, r: nat, e: nat,
                                              n: nat)
    requires IsRun(c, states, actions) && n <= |actions|
    requires r in states[n].db.hooks && states[n].db.hooks[r].event == Some(e)
    ensures states[n].db.hooks[r].status
         == match LastReport(c, states, actions, e, n) case None => Pending case Some(status) => status
  {
    if n > 0 {
      var s, a := states[n - 1], actions[n - 1];
      RunKeepsInv(c, states, actions, n - 1);
      assert StepAt(c, states, actions, n - 1);
      StepTells(c, s, a, r, e);
      if r in s.db.hooks && s.db.hooks[r].event == Some(e) {
        StatusIsLastReport(c, states, actions, r, e, n - 1);
      } else if e >= s.nextEvent {
        NoReportBeforeEvent(c, states, actions, e, n - 1);
      }
    }
  }

  // ----- When the redemption agrees with its event -----

  /** Event e is the current one of redemption r, and it is over. */
  ghost predicate Over(s: State, r: nat, e: nat) {
    && r in s.db.hooks && s.db.hooks[r].event == Some(e)
    && e in s.db.outbox && Terminal(s.db.outbox[e].status)
  }

  /** Once its event is over, a redemption shows the event's status exactly when the last report
      about the event was a final one. */
  lemma AgreesIffLastReportIsFinal(c: Config, states: seq<State>, actions: seq<Action>, r: nat, e: nat, n: nat)
    requires IsRun(c, states, actions) && n <= |actions| && Over(states[n], r, e)
    ensures states[n].db.hooks[r].status == states[n].db.outbox[e].status
       <==> var last := LastReport(c, states, actions, e, n); last.Some? && Terminal(last.value)
  {
    StatusIsLastReport(c, states, actions, r, e, n);
    RunKeepsInv(c, states, actions, n);
    assert HookOk(states[n], r);
  }

  /** Step k reports the end of event e; or that it will be retried. */
  ghost predicate TellsEnd(states: seq<State>, actions: seq<Action>, e: nat, k: nat)
    requires k < |actions| < |states|
  {
    Tells(states[k], actions[k], e) && Terminal(Told(states[k], actions[k], e))
  }

  ghost predicate TellsRetry(states: seq<State>, actions: seq<Action>, e: nat, k: nat)
    requires k < |actions| < |states|
  {
    Tells(states[k], actions[k], e) && !Terminal(Told(states[k], actions[k], e))
  }

  /** Among the first n steps the end of event e is reported, and no retry of it after that. */
  ghost predicate EndToldLast(states: seq<State>, actions: seq<Action>, e: nat, n: nat)
    requires n <= |actions| < |states|
  {
    exists k :: 0 <= k < n && TellsEnd(states, actions, e, k)
                && forall l :: k < l < n ==> !TellsRetry(states, actions, e, l)
  }

  lemma {:induction false} LastReportIsFinalIff(c: Config, states: seq<State>, actions: seq<Action>, e: nat, n: nat)
    requires IsRun(c, states, actions) && n <= |actions|
    ensures EndToldLast(states, actions, e, n)
       <==> var last := LastReport(c, states, actions, e, n); last.Some? && Terminal(last.value)
  {
    if n > 0 {
      LastReportIsFinalIff(c, states, actions, e, n - 1);
      if TellsEnd(states, actions, e, n - 1) {
        assert EndToldLast(states, actions, e, n);
      } else if !TellsRetry(states, actions, e, n - 1) && EndToldLast(states, actions, e, n - 1) {
        var k :| 0 <= k < n - 1 && TellsEnd(states, actions, e, k)
                 && forall l :: k < l < n - 1 ==> !TellsRetry(states, actions, e, l);
        assert TellsEnd(states, actions, e, k);
      }
    }
  }

  /** Once its event is over, a redemption shows the event's status exactly when the report of the
      end has arrived and no report of a retry has arrived after it. There are two ways to miss
      this: the worker that ended the event never reports, or an older worker reports after it. */
  lemma AgreesIffEndIsToldLast(c: Config, states: seq<State>, actions: seq<Action>, r: nat, e: nat, n: nat)
    requires IsRun(c, states, actions) && n <= |actions| && Over(states[n], r, e)
    ensures states[n].db.hooks[r].status == states[n].db.outbox[e].status <==> EndToldLast(states, actions, e, n)
  {
    AgreesIffLastReportIsFinal(c, states, actions, r, e, n);
    LastReportIsFinalIff(c, states, actions, e, n);
  }

  // ----- Redemptions that never agree -----

  /** Pending, with its event over and nobody left to report that. */
  ghost predicate Stuck(s: State, r: nat) {
    && r in s.db.hooks && s.db.hooks[r].status.Pending? && s.db.hooks[r].event.Some?
    && var e := s.db.hooks[r].event.value;
    && e in s.db.outbox && Terminal(s.db.outbox[e].status)
    && !EndIsUnderway(s, e)
  }

  /** Some worker still has to report the end of event e. */
  ghost predicate EndIsUnderway(s: State, e: nat) {
    exists t :: t in s.jobs && s.jobs[t].event == e && s.jobs[t].phase.Reporting? && Terminal(s.jobs[t].phase.status)
  }

  /** A redemption whose event is over either shows that, or will be told, or is stuck. */
  lemma AgreesOrIsToldOrStuck(c: Config, states: seq<State>, actions: seq<Action>, r: nat, e: nat, n: nat)
    requires IsRun(c, states, actions) && n <= |actions| && Over(states[n], r, e)
    ensures Stuck(states[n], r) <==> !EndToldLast(states, actions, e, n) && !EndIsUnderway(states[n], e)
  {
    AgreesIffEndIsToldLast(c, states, actions, r, e, n);
    RunKeepsInv(c, states, actions, n);
    assert HookOk(states[n], r);
  }

  /** Such a redemption never shows its outcome, and every resend of it is refused. */
  lemma StuckStays(c: Config, s: State, a: Action, r: nat)
    requires Inv(s) && Enabled(s, a) && Stuck(s, r)
    ensures Stuck(Next(c, s, a), r)
    ensures a == Resend(r) ==> Next(c, s, a) == s
  {
  }

  // ----- Both ways there -----

  /** A worker writes a retry to the outbox and is delayed before it reports; the retry is leased
      by another worker, succeeds and is reported; then the first report arrives. */
  function LateReport(): (actions: seq<Action>)
  {
    [Redeem(0, true, true), Lease(0), Complete(0, Bad(true), 0), Tick(3600 * SECOND),
     Lease(0), Complete(1, Ok, 0), Report(1), Report(0)]
  }

  /** A worker delivers, writes the outbox row and crashes before it reports. */
  function LostReport(): (actions: seq<Action>)
  {
    [Redeem(0, true, true), Lease(0), Complete(0, Ok, 0), Lose(0)]
  }

  ghost function RunFrom(c: Config, s: State, actions: seq<Action>): (r: Option<State>)
    decreases |actions|
  {
    if actions == [] then Some(s)
    else if !Enabled(s, actions[0]) then None
    else RunFrom(c, Next(c, s, actions[0]), actions[1..])
  }

  lemma {:induction false} PathOf(c: Config, s: State, actions: seq<Action>) returns (states: seq<State>)
    requires RunFrom(c, s, actions).Some?
    ensures |states| == |actions| + 1 && states[0] == s && RunFrom(c, s, actions) == Some(states[|actions|])
    ensures forall i :: 0 <= i < |actions| ==> StepAt(c, states, actions, i)
    decreases |actions|
  {
    if actions == [] {
      states := [s];
    } else {
      var rest := PathOf(c, Next(c, s, actions[0]), actions[1..]);
      states := [s] + rest;
      forall i | 0 <= i < |actions| ensures StepAt(c, states, actions, i) {
        assert i > 0 ==> StepAt(c, rest, actions[1..], i - 1);
      }
    }
  }

  lemma LateReportRuns()
    ensures var s := RunFrom(DEFAULT, INITIAL, LateReport()); s.Some? && Stuck(s.value, 0)
  {
    DefaultDelays(1);
    assert RunFrom(DEFAULT, INITIAL, LateReport()).value.jobs == map[];
  }

  lemma LostReportRuns()
    ensures var s := RunFrom(DEFAULT, INITIAL, LostReport()); s.Some? && Stuck(s.value, 0)
  {
  }

  /** The defaults' own configuration has a run of each kind. */
  lemma StatusCanStayBehind()
    ensures exists states :: IsRun(DEFAULT, states, LateReport()) && Stuck(states[|LateReport()|], 0)
    ensures exists states :: IsRun(DEFAULT, states, LostReport()) && Stuck(states[|LostReport()|], 0)
  {
    LateReportRuns();
    var late := PathOf(DEFAULT, INITIAL, LateReport());
    assert IsRun(DEFAULT, late, LateReport());
    LostReportRuns();
    var lost := PathOf(DEFAULT, INITIAL, LostReport());
    assert IsRun(DEFAULT, lost, LostReport());
  }
}

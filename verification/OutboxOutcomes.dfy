/** What each step of the webhook protocol writes, in the columns of its rows, and which outcome each
    status stands for. */
module OutboxOutcomes {
  import opened Base
  import opened Backoff
  import opened OutboxProtocol
  import opened OutboxProof
  import opened OutboxTheorems
  import opened OutboxStatus

  // ----- Entering and resending -----

  /** A redemption with a webhook enters with one pending event, due at once. */
  lemma RedeemWrites(c: Config, s: State, r: nat, success: bool, webhook: bool)
    requires Enabled(s, Redeem(r, success, webhook))
    ensures var s' := Next(c, s, Redeem(r, success, webhook));
            if webhook then
              && s'.db.outbox == s.db.outbox[s.nextEvent := Event(r, Pending, s.now, None, None, 0)]
              && s'.db.hooks == s.db.hooks[r := Hook(true, Pending, Some(s.nextEvent), 0)]
              && s'.nextEvent == s.nextEvent + 1
            else
              s'.db.outbox == s.db.outbox && s'.db.hooks == s.db.hooks[r := Hook(success, Unused, None, 0)]
  {
  }

  /** A resend is granted exactly to a successful redemption whose webhook has ended or shows failed:
      it enters a new pending event, due at once, and makes it the current one. */
  lemma ResendWrites(c: Config, s: State, r: nat)
    requires Enabled(s, Resend(r))
    ensures var s', h := Next(c, s, Resend(r)), s.db.hooks[r];
            if h.success && (h.status.Success? || h.status.Failed? || h.status.DeadLetter?) then
              && s'.db.outbox == s.db.outbox[s.nextEvent := Event(r, Pending, s.now, None, None, 0)]
              && s'.db.hooks == s.db.hooks[r := h.(status := Pending, event := Some(s.nextEvent))]
              && s'.nextEvent == s.nextEvent + 1
            else
              s' == s
  {
  }

  // ----- Leasing -----

  /** Which rows can be leased. */
  lemma LeasesAre(s: State, e: nat)
    ensures Enabled(s, Lease(e))
       <==> && e in s.db.outbox
            && var row := s.db.outbox[e];
            && (row.status.Pending? || row.status.Failed?) && row.scheduledAt <= s.now
            && (row.leaseUntil.None? || row.leaseUntil.value <= s.now)
  {
  }

  /** A lease puts a new token on the row for two minutes and counts an attempt. */
  lemma LeaseWrites(c: Config, s: State, e: nat)
    requires Enabled(s, Lease(e))
    ensures var s', row := Next(c, s, Lease(e)), s.db.outbox[e];
            && s'.db.hooks == s.db.hooks
            && s'.db.outbox == s.db.outbox[e :=
                 row.(status := Pending, token := Some(s.nextToken), leaseUntil := Some(s.now + 120 * 1_000_000_000),
                      attempts := row.attempts + 1)]
            && s.nextToken in s'.jobs && s'.jobs[s.nextToken].event == e
            && s'.jobs[s.nextToken].attempts == row.attempts + 1 && s'.jobs[s.nextToken].phase.Delivering?
  {
  }

  lemma LeaseRests(c: Config, s: State, a: Action, e: nat)
    requires Inv(s) && Enabled(s, a) && e in s.db.outbox && a != Lease(e) && !Records(s, a, e)
    ensures var s' := Next(c, s, a); e in s'.db.outbox && s'.db.outbox[e] == s.db.outbox[e]
  {
    assert EventOk(s, e);
  }

  lemma {:induction false} RestsUnderLease(c: Config, states: seq<State>, actions: seq<Action>, i: nat, j: nat, e: nat)
    requires IsRun(c, states, actions) && i <= j < |states| && e in states[i].db.outbox
    requires forall k :: i <= k < j ==> actions[k] != Lease(e) && !Records(states[k], actions[k], e)
    ensures e in states[j].db.outbox && states[j].db.outbox[e] == states[i].db.outbox[e]
  {
    if i < j {
      RestsUnderLease(c, states, actions, i, j - 1, e);
      RunKeepsInv(c, states, actions, j - 1);
      assert StepAt(c, states, actions, j - 1);
      LeaseRests(c, states[j - 1], actions[j - 1], e);
    }
  }

  lemma {:induction false} ClockGoesOn(c: Config, states: seq<State>, actions: seq<Action>, i: nat, j: nat)
    requires IsRun(c, states, actions) && i <= j < |states|
    ensures states[i].now <= states[j].now
  {
    if i < j {
      ClockGoesOn(c, states, actions, i, j - 1);
      assert StepAt(c, states, actions, j - 1);
    }
  }

  /** A lease that is not completed can be taken over after two minutes, and not before. */
  lemma LeasesLast(c: Config, states: seq<State>, actions: seq<Action>, i: nat, j: nat, e: nat)
    requires IsRun(c, states, actions) && i < j < |states| && i < |actions| && actions[i] == Lease(e)
    requires forall k :: i < k < j ==> actions[k] != Lease(e) && !Records(states[k], actions[k], e)
    ensures Enabled(states[j], Lease(e)) <==> states[j].now >= states[i].now + 120 * 1_000_000_000
  {
    assert StepAt(c, states, actions, i);
    ClockGoesOn(c, states, actions, i, j);
    RestsUnderLease(c, states, actions, i + 1, j, e);
  }

  // ----- Outcomes -----

  /** The status a recorded outcome gives the row, when it is due again, and that its lease ends. */
  lemma OutcomesAre(c: Config, states: seq<State>, actions: seq<Action>, i: nat, e: nat)
    requires IsRun(c, states, actions) && i < |actions| && Records(states[i], actions[i], e)
    ensures e in states[i].db.outbox && e in states[i + 1].db.outbox
    ensures var row, row' := states[i].db.outbox[e], states[i + 1].db.outbox[e];
            var o, n := actions[i].outcome, states[i].jobs[actions[i].token].attempts;
            && (row'.status == Success <==> o == Ok)
            && (row'.status == Failed <==> o == Bad(true) && n < c.maxAttempts)
            && (row'.status == DeadLetter <==> o.Bad? && !(o.retry && n < c.maxAttempts))
            && n == row.attempts >= 1
            && row'.scheduledAt == (if o == Ok then row.scheduledAt
                                    else if row'.status == Failed then actions[i].decidedAt + Delay(c, n)
                                    else actions[i].decidedAt)
            && row'.token.None? && row'.leaseUntil.None?
            && row'.redemption == row.redemption && row'.attempts == row.attempts
    ensures states[i + 1].db.hooks == states[i].db.hooks
  {
    RunKeepsInv(c, states, actions, i);
    assert StepAt(c, states, actions, i);
    assert JobOk(states[i], actions[i].token);
  }

  /** Among the first n steps event e was delivered; or its delivery was given up. */
  ghost predicate Delivered(states: seq<State>, actions: seq<Action>, e: nat, n: nat)
    requires n <= |actions| < |states|
  {
    exists k :: 0 <= k < n && RecordsOk(states[k], actions[k], e)
  }

  predicate RecordsOk(s: State, a: Action, e: nat) { Records(s, a, e) && a.outcome == Ok }

  ghost predicate GivenUp(c: Config, states: seq<State>, actions: seq<Action>, e: nat, n: nat)
    requires n <= |actions| < |states|
  {
    exists k :: 0 <= k < n && RecordsLast(c, states[k], actions[k], e)
  }

  predicate RecordsLast(c: Config, s: State, a: Action, e: nat) {
    Records(s, a, e) && a.outcome.Bad? && !(a.outcome.retry && s.jobs[a.token].attempts < c.maxAttempts)
  }

  ghost predicate Shows(s: State, e: nat, status: Status) { e in s.db.outbox && s.db.outbox[e].status == status }

  lemma StepShows(c: Config, s: State, a: Action, e: nat)
    requires Inv(s) && Enabled(s, a)
    ensures Shows(Next(c, s, a), e, Success) <==> Shows(s, e, Success) || RecordsOk(s, a, e)
    ensures Shows(Next(c, s, a), e, DeadLetter) <==> Shows(s, e, DeadLetter) || RecordsLast(c, s, a, e)
  {
    assert e in s.db.outbox ==> EventOk(s, e);
    assert a.Complete? ==> JobOk(s, a.token);
    assert e in s.db.outbox && Terminal(s.db.outbox[e].status) ==> s.db.outbox[e].token.None?;
  }

  /** In every state a row is success exactly when a delivery of its event was recorded as done, and
      dead_letter exactly when one was recorded as failed for good. */
  lemma {:induction false} StatusesTell(c: Config, states: seq<State>, actions: seq<Action>, e: nat, n: nat)
    requires IsRun(c, states, actions) && n <= |actions|
    ensures e in states[n].db.outbox && states[n].db.outbox[e].status == Success <==> Delivered(states, actions, e, n)
    ensures e in states[n].db.outbox && states[n].db.outbox[e].status == DeadLetter
       <==> GivenUp(c, states, actions, e, n)
  {
    if n > 0 {
      StatusesTell(c, states, actions, e, n - 1);
      RunKeepsInv(c, states, actions, n - 1);
      assert StepAt(c, states, actions, n - 1);
      StepShows(c, states[n - 1], actions[n - 1], e);
      DeliveredStep(states, actions, e, n);
      GivenUpStep(c, states, actions, e, n);
    }
  }

  lemma DeliveredStep(states: seq<State>, actions: seq<Action>, e: nat, n: nat)
    requires 0 < n <= |actions| < |states|
    ensures Delivered(states, actions, e, n)
       <==> Delivered(states, actions, e, n - 1) || RecordsOk(states[n - 1], actions[n - 1], e)
  {
  }

  lemma GivenUpStep(c: Config, states: seq<State>, actions: seq<Action>, e: nat, n: nat)
    requires 0 < n <= |actions| < |states|
    ensures GivenUp(c, states, actions, e, n)
       <==> GivenUp(c, states, actions, e, n - 1) || RecordsLast(c, states[n - 1], actions[n - 1], e)
  {
  }

  // ----- Reports -----

  lemma JobStays(c: Config, s: State, a: Action, t: nat)
    requires Enabled(s, a) && t in s.jobs && s.jobs[t].phase.Reporting? && t in Next(c, s, a).jobs && t < s.nextToken
    ensures Next(c, s, a).jobs[t] == s.jobs[t]
  {
  }

  /** A job that is still there has been there all along, as it was. */
  lemma {:induction false} JobStaysLong(c: Config, states: seq<State>, actions: seq<Action>, i: nat, j: nat, t: nat)
    requires IsRun(c, states, actions) && i <= j < |states|
    requires t in states[i].jobs && states[i].jobs[t].phase.Reporting? && t in states[j].jobs
    ensures states[j].jobs[t] == states[i].jobs[t]
    decreases j - i
  {
    if i < j {
      RunKeepsInv(c, states, actions, i);
      assert JobOk(states[i], t);
      assert StepAt(c, states, actions, i);
      if t !in states[i + 1].jobs {
        GoneJobsStayGone(c, states, actions, i + 1, j, t);
      }
      JobStays(c, states[i], actions[i], t);
      JobStaysLong(c, states, actions, i + 1, j, t);
    }
  }

  /** A report that reaches the redemption shows there the outcome that its worker recorded: success
      for a delivery, pending for a retry, dead_letter for the end. It counts one webhook attempt. */
  lemma ReportsTell(c: Config, states: seq<State>, actions: seq<Action>, i: nat, j: nat, e: nat)
    requires IsRun(c, states, actions) && i < j < |actions| && Records(states[i], actions[i], e)
    requires actions[j] == Report(actions[i].token) && Tells(states[j], actions[j], e)
    ensures var t, o := actions[i].token, actions[i].outcome;
            var n, r := states[i].jobs[t].attempts, states[i].jobs[t].redemption;
            && r in states[j].db.hooks && states[j].db.hooks[r].event == Some(e)
            && states[j + 1].db.hooks == states[j].db.hooks[r :=
                 states[j].db.hooks[r].(
                   status := if o == Ok then Success else if o.retry && n < c.maxAttempts then Pending else DeadLetter,
                   attempts := states[j].db.hooks[r].attempts + 1)]
            && states[j + 1].db.outbox == states[j].db.outbox
  {
    assert StepAt(c, states, actions, i) && StepAt(c, states, actions, j);
    JobStaysLong(c, states, actions, i + 1, j, actions[i].token);
  }

  /** Step a reports to redemption r about its current event. */
  predicate ReportsTo(s: State, a: Action, r: nat) {
    && a.Report? && a.token in s.jobs && s.jobs[a.token].redemption == r
    && r in s.db.hooks && s.db.hooks[r].event == Some(s.jobs[a.token].event)
  }

  ghost function ReportsMade(c: Config, states: seq<State>, actions: seq<Action>, r: nat, n: nat): (k: nat)
    requires IsRun(c, states, actions) && n <= |actions|
  {
    if n == 0 then 0
    else ReportsMade(c, states, actions, r, n - 1) + if ReportsTo(states[n - 1], actions[n - 1], r) then 1 else 0
  }

  /** A redemption's webhook attempts are the reports that reached it. */
  lemma {:induction false} AttemptsAreReports(c: Config, states: seq<State>, actions: seq<Action>, r: nat, n: nat)
    requires IsRun(c, states, actions) && n <= |actions|
    ensures (if r in states[n].db.hooks then states[n].db.hooks[r].attempts else 0)
         == ReportsMade(c, states, actions, r, n)
  {
    if n > 0 {
      AttemptsAreReports(c, states, actions, r, n - 1);
      assert StepAt(c, states, actions, n - 1);
    }
  }
}

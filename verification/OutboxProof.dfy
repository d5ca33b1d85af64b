/** What every run of the webhook delivery protocol keeps. */
module OutboxProof {
  import opened Base
  import opened Backoff
  import opened OutboxProtocol

  // ----- The invariant -----

  /** A row: a lease has both its columns, only a pending row is leased, and a live row is the
      current event of its redemption. */
  ghost predicate EventOk(s: State, e: nat)
    requires e in s.db.outbox
  {
    var row := s.db.outbox[e];
    && e < s.nextEvent
    && !row.status.Unused?
    && (row.token.Some? <==> row.leaseUntil.Some?)
    && (row.token.Some? ==> row.status.Pending? && row.token.value < s.nextToken)
    && row.redemption in s.db.hooks
    && (Live(row) ==> s.db.hooks[row.redemption].event == Some(e))
  }

  /** A redemption: its current event exists and is its own, and a final status is that event's. */
  ghost predicate HookOk(s: State, r: nat)
    requires r in s.db.hooks
  {
    var h := s.db.hooks[r];
    && !h.status.Failed?
    && (h.status.Unused? <==> h.event.None?)
    && (h.event.Some? ==>
          && h.success
          && h.event.value in s.db.outbox && s.db.outbox[h.event.value].redemption == r
          && (Terminal(h.status) ==> s.db.outbox[h.event.value].status == h.status))
  }

  /** A job: while its token is on the row it knows the row's attempts and its lease; while its
      lease runs its token is on the row; a final report is what the row says. */
  ghost predicate JobOk(s: State, t: nat)
    requires t in s.jobs
  {
    var j := s.jobs[t];
    && t < s.nextToken && j.event in s.db.outbox && j.attempts >= 1
    && s.db.outbox[j.event].redemption == j.redemption
    && (j.phase.Delivering? ==>
          && (j.until > s.now ==> s.db.outbox[j.event].token == Some(t))
          && (s.db.outbox[j.event].token == Some(t) ==>
                s.db.outbox[j.event].attempts == j.attempts && s.db.outbox[j.event].leaseUntil == Some(j.until)))
    && (j.phase.Reporting? ==>
          && (j.phase.status.Pending? || Terminal(j.phase.status))
          && (Terminal(j.phase.status) ==> s.db.outbox[j.event].status == j.phase.status))
  }

  /** A token is on one row at most, that of its job while the job delivers. */
  ghost predicate TokenOk(s: State, e: nat)
    requires e in s.db.outbox
  {
    var token := s.db.outbox[e].token;
    token.Some? && token.value in s.jobs ==> s.jobs[token.value].event == e && s.jobs[token.value].phase.Delivering?
  }

  ghost predicate Inv(s: State) {
    && (forall e :: e in s.db.outbox ==> EventOk(s, e) && TokenOk(s, e))
    && (forall r :: r in s.db.hooks ==> HookOk(s, r))
    && (forall t :: t in s.jobs ==> JobOk(s, t))
  }

  // ----- Each step keeps it -----

  lemma RedeemKeepsInv(c: Config, s: State, a: Action)
    requires Inv(s) && Enabled(s, a) && a.Redeem?
    ensures Inv(Next(c, s, a))
  {
  }

  lemma LeaseKeepsInv(c: Config, s: State, a: Action)
    requires Inv(s) && Enabled(s, a) && a.Lease?
    ensures Inv(Next(c, s, a))
  {
  }

  lemma CompleteKeepsEvents(c: Config, s: State, a: Action, e: nat)
    requires Inv(s) && Enabled(s, a) && a.Complete? && e in s.db.outbox
    ensures e in Next(c, s, a).db.outbox && EventOk(Next(c, s, a), e) && TokenOk(Next(c, s, a), e)
  {
  }

  lemma CompleteKeepsHooks(c: Config, s: State, a: Action, r: nat)
    requires Inv(s) && Enabled(s, a) && a.Complete? && r in s.db.hooks
    ensures r in Next(c, s, a).db.hooks && HookOk(Next(c, s, a), r)
  {
  }

  lemma CompleteKeepsJobs(c: Config, s: State, a: Action, t: nat)
    requires Inv(s) && Enabled(s, a) && a.Complete? && t in Next(c, s, a).jobs
    ensures JobOk(Next(c, s, a), t)
  {
  }

  lemma CompleteKeepsInv(c: Config, s: State, a: Action)
    requires Inv(s) && Enabled(s, a) && a.Complete?
    ensures Inv(Next(c, s, a))
  {
    var s' := Next(c, s, a);
    assert s'.db.outbox.Keys == s.db.outbox.Keys && s'.db.hooks == s.db.hooks;
    forall e | e in s'.db.outbox ensures EventOk(s', e) && TokenOk(s', e) {
      CompleteKeepsEvents(c, s, a, e);
    }
    forall r | r in s'.db.hooks ensures HookOk(s', r) {
      CompleteKeepsHooks(c, s, a, r);
    }
    forall t | t in s'.jobs ensures JobOk(s', t) {
      CompleteKeepsJobs(c, s, a, t);
    }
  }

  lemma ReportKeepsInv(c: Config, s: State, a: Action)
    requires Inv(s) && Enabled(s, a) && (a.Report? || a.Lose?)
    ensures Inv(Next(c, s, a))
  {
    var s' := Next(c, s, a);
    assert JobOk(s, a.token);
    forall e | e in s'.db.outbox ensures EventOk(s', e) && TokenOk(s', e) {
      assert EventOk(s, e) && TokenOk(s, e);
    }
    forall r | r in s'.db.hooks ensures HookOk(s', r) {
      assert HookOk(s, r);
    }
    forall t | t in s'.jobs ensures JobOk(s', t) {
      assert JobOk(s, t);
    }
  }

  /** A resend is granted only when the current event is over, so the new event is the only live one. */
  lemma ResendKeepsInv(c: Config, s: State, a: Action)
    requires Inv(s) && Enabled(s, a) && a.Resend?
    ensures Inv(Next(c, s, a))
  {
  }

  lemma TickKeepsInv(c: Config, s: State, a: Action)
    requires Inv(s) && Enabled(s, a) && a.Tick?
    ensures Inv(Next(c, s, a))
  {
  }

  lemma StepKeepsInv(c: Config, s: State, a: Action)
    requires Inv(s) && Enabled(s, a)
    ensures Inv(Next(c, s, a))
  {
    match a
    case Redeem(_, _, _) => RedeemKeepsInv(c, s, a);
    case Lease(_) => LeaseKeepsInv(c, s, a);
    case Complete(_, _, _) => CompleteKeepsInv(c, s, a);
    case Report(_) => ReportKeepsInv(c, s, a);
    case Lose(_) => ReportKeepsInv(c, s, a);
    case Resend(_) => ResendKeepsInv(c, s, a);
    case Tick(_) => TickKeepsInv(c, s, a);
  }

  lemma {:induction false} RunKeepsInv(c: Config, states: seq<State>, actions: seq<Action>, i: nat)
    requires IsRun(c, states, actions) && i < |states|
    ensures Inv(states[i])
  {
    if i > 0 {
      RunKeepsInv(c, states, actions, i - 1);
      assert StepAt(c, states, actions, i - 1);
      StepKeepsInv(c, states[i - 1], actions[i - 1]);
    }
  }
}

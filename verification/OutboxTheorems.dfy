/** What the webhook outbox promises, for every run with any number of workers, crashes, refused
    writes, lost leases and resends. */
module OutboxTheorems {
  import opened Base
  import opened Backoff
  import opened OutboxProtocol
  import opened OutboxProof

  // ----- One live event per redemption -----

  /** A redemption has at most one live event, and that is its current one. */
  lemma LiveEventIsCurrent(c: Config, states: seq<State>, actions: seq<Action>, i: nat, e: nat, f: nat)
    requires IsRun(c, states, actions) && i < |states| && e in states[i].db.outbox && f in states[i].db.outbox
    requires Live(states[i].db.outbox[e]) && Live(states[i].db.outbox[f])
    requires states[i].db.outbox[e].redemption == states[i].db.outbox[f].redemption
    ensures e == f
    ensures states[i].db.outbox[e].redemption in states[i].db.hooks
    ensures states[i].db.hooks[states[i].db.outbox[e].redemption].event == Some(e)
  {
    RunKeepsInv(c, states, actions, i);
    assert EventOk(states[i], e) && EventOk(states[i], f);
  }

  /** A redemption that shows success or dead_letter shows what its current event's row says. */
  lemma FinalStatusIsTheEvents(c: Config, states: seq<State>, actions: seq<Action>, i: nat, r: nat)
    requires IsRun(c, states, actions) && i < |states| && r in states[i].db.hooks
    requires Terminal(states[i].db.hooks[r].status)
    ensures var h := states[i].db.hooks[r];
            && h.event.Some? && h.event.value in states[i].db.outbox
            && states[i].db.outbox[h.event.value].redemption == r
            && states[i].db.outbox[h.event.value].status == h.status
  {
    RunKeepsInv(c, states, actions, i);
    assert HookOk(states[i], r);
  }

  /** A resend that is granted runs beside no live event of its redemption; one that is refused
      changes nothing. */
  lemma ResendRunsAlone(c: Config, states: seq<State>, actions: seq<Action>, i: nat, r: nat, e: nat)
    requires IsRun(c, states, actions) && i < |actions| && actions[i] == Resend(r)
    ensures r in states[i].db.hooks
    ensures !Resendable(states[i].db.hooks[r]) ==> states[i + 1] == states[i]
    ensures Resendable(states[i].db.hooks[r]) && e in states[i].db.outbox && states[i].db.outbox[e].redemption == r ==>
              && !Live(states[i].db.outbox[e])
              && e in states[i + 1].db.outbox && states[i + 1].db.outbox[e] == states[i].db.outbox[e]
  {
    RunKeepsInv(c, states, actions, i);
    assert StepAt(c, states, actions, i);
    assert HookOk(states[i], r);
    assert e in states[i].db.outbox ==> EventOk(states[i], e);
    assert forall f :: f in states[i].db.outbox ==> EventOk(states[i], f);
  }

  // ----- Fencing -----

  /** A row that is success or dead_letter never changes again. */
  lemma TerminalRowStays(c: Config, s: State, a: Action, e: nat)
    requires Inv(s) && Enabled(s, a) && e in s.db.outbox && Terminal(s.db.outbox[e].status)
    ensures var s' := Next(c, s, a); e in s'.db.outbox && s'.db.outbox[e] == s.db.outbox[e]
  {
  }

  lemma {:induction false} TerminalRowsAreFinal(c: Config, states: seq<State>, actions: seq<Action>, i: nat, j: nat,
                                                e: nat)
    requires IsRun(c, states, actions) && i <= j < |states|
    requires e in states[i].db.outbox && Terminal(states[i].db.outbox[e].status)
    ensures e in states[j].db.outbox && states[j].db.outbox[e] == states[i].db.outbox[e]
  {
    if i < j {
      TerminalRowsAreFinal(c, states, actions, i, j - 1, e);
      RunKeepsInv(c, states, actions, j - 1);
      assert StepAt(c, states, actions, j - 1);
      TerminalRowStays(c, states[j - 1], actions[j - 1], e);
    }
  }

  /** Tokens are drawn once: a job that is gone does not come back. */
  lemma {:induction false} GoneJobsStayGone(c: Config, states: seq<State>, actions: seq<Action>, i: nat, j: nat, t: nat)
    requires IsRun(c, states, actions) && i <= j < |states|
    requires t < states[i].nextToken && t !in states[i].jobs
    ensures t < states[j].nextToken && t !in states[j].jobs
  {
    if i < j {
      GoneJobsStayGone(c, states, actions, i, j - 1, t);
      assert StepAt(c, states, actions, j - 1);
    }
  }

  /** A completion whose token is not on the row changes neither table: not at its outbox write,
      and never after, because the job that would report is gone. */
  lemma StaleCompletionsAreVoid(c: Config, states: seq<State>, actions: seq<Action>, i: nat, t: nat, j: nat)
    requires IsRun(c, states, actions) && i < j < |actions|
    requires actions[i].Complete? && actions[i].token == t && !Hits(states[i], t)
    ensures states[i + 1].db == states[i].db
    ensures !(actions[j].Complete? && actions[j].token == t) && actions[j] != Report(t)
  {
    RunKeepsInv(c, states, actions, i);
    assert StepAt(c, states, actions, i) && StepAt(c, states, actions, j);
    assert JobOk(states[i], t);
    GoneJobsStayGone(c, states, actions, i + 1, j, t);
  }

  /** No row is under two running leases. */
  lemma OneRunningLease(c: Config, states: seq<State>, actions: seq<Action>, i: nat, t: nat, u: nat)
    requires IsRun(c, states, actions) && i < |states| && t in states[i].jobs && u in states[i].jobs
    requires states[i].jobs[t].phase.Delivering? && states[i].jobs[u].phase.Delivering?
    requires states[i].jobs[t].event == states[i].jobs[u].event
    requires states[i].jobs[t].until > states[i].now && states[i].jobs[u].until > states[i].now
    ensures t == u
  {
    RunKeepsInv(c, states, actions, i);
    assert JobOk(states[i], t) && JobOk(states[i], u);
  }

  // ----- How often an event is tried -----

  /** Outcomes recorded for event e among the first n steps. */
  ghost function Outcomes(c: Config, states: seq<State>, actions: seq<Action>, e: nat, n: nat): (k: nat)
    requires IsRun(c, states, actions) && n <= |actions|
  {
    if n == 0 then 0
    else Outcomes(c, states, actions, e, n - 1) + if Records(states[n - 1], actions[n - 1], e) then 1 else 0
  }

  predicate Records(s: State, a: Action, e: nat) { a.Complete? && Hits(s, a.token) && s.jobs[a.token].event == e }

  /** Leases of event e, among the first n steps, that took over a lease that had expired. */
  ghost function Releases(c: Config, states: seq<State>, actions: seq<Action>, e: nat, n: nat): (k: nat)
    requires IsRun(c, states, actions) && n <= |actions|
  {
    if n == 0 then 0
    else Releases(c, states, actions, e, n - 1) + if TakesOver(states[n - 1], actions[n - 1], e) then 1 else 0
  }

  predicate TakesOver(s: State, a: Action, e: nat) {
    a == Lease(e) && e in s.db.outbox && s.db.outbox[e].token.Some?
  }

  function Max1(n: int): (m: int)
    ensures m >= 1 && m >= n
  {
    if n < 1 then 1 else n
  }

  /** The count kept for one row: `o` outcomes and `k` takeovers so far. */
  ghost predicate Counted(c: Config, s: State, e: nat, o: nat, k: nat) {
    if e !in s.db.outbox then o == 0 && k == 0
    else
      var row := s.db.outbox[e];
      && row.attempts == o + k + (if row.token.Some? then 1 else 0)
      && (Live(row) ==> o < Max1(c.maxAttempts))
      && o <= Max1(c.maxAttempts)
  }

  lemma StepCounts(c: Config, s: State, a: Action, e: nat, o: nat, k: nat)
    requires Inv(s) && Enabled(s, a) && Counted(c, s, e, o, k)
    ensures Counted(c, Next(c, s, a), e,
                    o + (if Records(s, a, e) then 1 else 0), k + (if TakesOver(s, a, e) then 1 else 0))
  {
  }

  lemma {:induction false} RunCounts(c: Config, states: seq<State>, actions: seq<Action>, e: nat, n: nat)
    requires IsRun(c, states, actions) && n <= |actions|
    ensures Counted(c, states[n], e, Outcomes(c, states, actions, e, n), Releases(c, states, actions, e, n))
  {
    if n > 0 {
      RunCounts(c, states, actions, e, n - 1);
      RunKeepsInv(c, states, actions, n - 1);
      assert StepAt(c, states, actions, n - 1);
      StepCounts(c, states[n - 1], actions[n - 1], e,
                 Outcomes(c, states, actions, e, n - 1), Releases(c, states, actions, e, n - 1));
    }
  }

  /** Over any run an event records at most MaxAttempts outcomes (one, if that is less than one),
      and its attempts exceed that by no more than the takeovers of expired leases. */
  lemma AttemptsAreBounded(c: Config, states: seq<State>, actions: seq<Action>, e: nat, n: nat)
    requires IsRun(c, states, actions) && n <= |actions| && e in states[n].db.outbox
    ensures Outcomes(c, states, actions, e, n) <= Max1(c.maxAttempts)
    ensures states[n].db.outbox[e].attempts <= Max1(c.maxAttempts) + Releases(c, states, actions, e, n)
  {
    RunCounts(c, states, actions, e, n);
    RunKeepsInv(c, states, actions, n);
    assert EventOk(states[n], e);
  }

  // ----- When it is tried again -----

  /** A row under no lease is changed by its next lease and by nothing before. */
  lemma {:induction false} RestsUntilLeased(c: Config, states: seq<State>, actions: seq<Action>, i: nat, j: nat, e: nat)
    requires IsRun(c, states, actions) && i <= j < |states|
    requires e in states[i].db.outbox && states[i].db.outbox[e].token.None?
    requires forall k :: i <= k < j ==> actions[k] != Lease(e)
    ensures e in states[j].db.outbox && states[j].db.outbox[e] == states[i].db.outbox[e]
  {
    if i < j {
      RestsUntilLeased(c, states, actions, i, j - 1, e);
      RunKeepsInv(c, states, actions, j - 1);
      assert StepAt(c, states, actions, j - 1);
      Rests(c, states[j - 1], actions[j - 1], e);
    }
  }

  lemma Rests(c: Config, s: State, a: Action, e: nat)
    requires Inv(s) && Enabled(s, a) && e in s.db.outbox && s.db.outbox[e].token.None? && a != Lease(e)
    ensures var s' := Next(c, s, a); e in s'.db.outbox && s'.db.outbox[e] == s.db.outbox[e]
  {
  }

  /** After a recorded failure the event's next lease comes only if the outcome was retryable and
      attempts were left, and not before the backoff delay has passed since the worker read its
      clock, which may be long before its write. */
  lemma RetriesWait(c: Config, states: seq<State>, actions: seq<Action>, i: nat, j: nat, e: nat)
    requires IsRun(c, states, actions) && i < j < |actions|
    requires Records(states[i], actions[i], e) && actions[i].outcome.Bad?
    requires actions[j] == Lease(e) && forall k :: i < k < j ==> actions[k] != Lease(e)
    ensures var n := states[i].jobs[actions[i].token].attempts;
            && actions[i].outcome.retry && 1 <= n < c.maxAttempts
            && states[j].now >= actions[i].decidedAt + Delay(c, n)
  {
    RunKeepsInv(c, states, actions, i);
    assert StepAt(c, states, actions, i) && StepAt(c, states, actions, j);
    assert JobOk(states[i], actions[i].token) && EventOk(states[i], e);
    RestsUntilLeased(c, states, actions, i + 1, j, e);
  }
}

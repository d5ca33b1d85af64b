/** Which credential a redemption gets, and what it means that there was none. */
module RedeemStock {
  import opened Base
  import opened CodeText
  import opened RequestHash
  import opened Tables
  import opened RedeemSpec
  import opened TableInvariant
  import opened RedeemProtocol
  import opened RedeemInvariant
  import opened RedeemProof
  import opened RedeemTheorems

  /** The action is transaction t's Take, passing over the rows it names, and it finds c. */
  ghost predicate Takes(s: Sys, a: Action, t: nat, plan: string, start: Time, c: Option<nat>) {
    && a.Run? && a.t == t && a.statement.Take? && SkipsLocked(s, t, a.statement.skipped)
    && FreeCredential(s.db, plan, start, a.statement.skipped) == c
  }

  // ----- Where a held credential and a refusal for want of one come from -----

  /** Refused because no credential was found. */
  predicate RefusedForStock(x: Txn) {
    && x.work.Single? && x.response == Some(One(Failure(CredentialUnavailable)))
    && (x.pc.LogFailure? || x.pc.StoreResponse? || x.pc.Commit?)
  }

  /** The outcome of a transaction's Take shows in it, and stays with the batch it was read with. */
  ghost predicate Shows(x: Txn, c: Option<nat>) {
    if c.Some? then x.cred.Some? && x.cred.value.id == c.value else RefusedForStock(x)
  }

  lemma CredentialIsTaken(s: Sys, t: nat, x: Txn, st: Statement, c: nat)
    requires TxnOk(s.db, x) && Ready(s, t, x, st) && Shows(RunStatement(s, t, x, st), Some(c))
    ensures var x' := RunStatement(s, t, x, st); x'.seen == x.seen && x'.start == x.start && x.seen.Some?
    ensures Shows(x, Some(c)) || Takes(s, Run(t, st), t, x.seen.value.batch.plan, x.start, Some(c))
  {
  }

  lemma RefusalIsTaken(s: Sys, t: nat, x: Txn, st: Statement)
    requires TxnOk(s.db, x) && Ready(s, t, x, st) && Shows(RunStatement(s, t, x, st), None)
    ensures var x' := RunStatement(s, t, x, st); x'.seen == x.seen && x'.start == x.start && x.seen.Some?
    ensures Shows(x, None) || Takes(s, Run(t, st), t, x.seen.value.batch.plan, x.start, None)
  {
    if IsReading(st) {
      ReadingRefuses(s, t, x, st);
    }
  }

  lemma ReadingRefuses(s: Sys, t: nat, x: Txn, st: Statement)
    requires TxnOk(s.db, x) && Ready(s, t, x, st) && IsReading(st) && Shows(RunStatement(s, t, x, st), None)
    ensures x.seen.Some? && Takes(s, Run(t, st), t, x.seen.value.batch.plan, x.start, None)
  {
  }

  lemma OthersShowTheSame(s: Sys, a: Action, s': Sys, t: nat, c: Option<nat>)
    requires Step(s, a, s') && t in s'.txns && Shows(s'.txns[t], c) && !(a.Run? && a.t == t)
    ensures t in s.txns && s'.txns[t] == s.txns[t]
  {
  }

  lemma StepShows(s: Sys, a: Action, s': Sys, t: nat, c: Option<nat>)
    requires Inv(s) && Step(s, a, s') && t in s'.txns && Shows(s'.txns[t], c)
    ensures t in s.txns && s'.txns[t].seen == s.txns[t].seen && s'.txns[t].start == s.txns[t].start
    ensures s.txns[t].seen.Some?
    ensures Shows(s.txns[t], c) || Takes(s, a, t, s.txns[t].seen.value.batch.plan, s.txns[t].start, c)
  {
    if a.Run? && a.t == t {
      assert TxnOk(s.db, s.txns[t]);
      if c.Some? {
        CredentialIsTaken(s, t, s.txns[t], a.statement, c.value);
      } else {
        RefusalIsTaken(s, t, s.txns[t], a.statement);
      }
    } else {
      OthersShowTheSame(s, a, s', t, c);
      assert TxnOk(s.db, s.txns[t]);
      ShownIsSeen(s.db, s.txns[t], c);
    }
  }

  lemma ShownIsSeen(db: Db, x: Txn, c: Option<nat>)
    requires TxnOk(db, x) && Shows(x, c)
    ensures x.seen.Some?
  {
  }

  /** The plan and the start that transaction t searches with. */
  ghost predicate Searches(s: Sys, t: nat, plan: string, start: Time) {
    t in s.txns && s.txns[t].seen.Some? && s.txns[t].seen.value.batch.plan == plan && s.txns[t].start == start
  }

  ghost predicate ShowsAt(s: Sys, t: nat, c: Option<nat>) { t in s.txns && Shows(s.txns[t], c) }

  lemma StepShowsAt(states: seq<Sys>, actions: seq<Action>, i: nat, t: nat, plan: string, start: Time, c: Option<nat>)
    requires IsRun(states, actions) && i < |actions| && ShowsAt(states[i + 1], t, c)
    requires Searches(states[i + 1], t, plan, start)
    ensures Searches(states[i], t, plan, start)
    ensures ShowsAt(states[i], t, c) || Takes(states[i], actions[i], t, plan, start, c)
  {
    assert StepAt(states, actions, i);
    RunKeepsInv(states, actions, i);
    StepShows(states[i], actions[i], states[i + 1], t, c);
  }

  lemma {:induction false} ShownWasTaken(
      states: seq<Sys>, actions: seq<Action>, i: nat, t: nat, plan: string, start: Time, c: Option<nat>)
      returns (k: nat)
    requires IsRun(states, actions) && i < |states| && ShowsAt(states[i], t, c) && Searches(states[i], t, plan, start)
    ensures k < i && Takes(states[k], actions[k], t, plan, start, c)
  {
    if i > 0 {
      StepShowsAt(states, actions, i - 1, t, plan, start, c);
      if ShowsAt(states[i - 1], t, c) {
        k := ShownWasTaken(states, actions, i - 1, t, plan, start, c);
      } else {
        k := i - 1;
      }
    }
  }

  /** What a commit shows was found by an earlier statement of its transaction. */
  lemma CommitWasTaken(states: seq<Sys>, actions: seq<Action>, i: nat, t: nat, c: Option<nat>) returns (k: nat)
    requires Commits(states, actions, i, t) && Shows(states[i].txns[t], c)
    ensures var x := states[i].txns[t];
            x.seen.Some? && k < i && Takes(states[k], actions[k], t, x.seen.value.batch.plan, x.start, c)
  {
    var x := states[i].txns[t];
    RunKeepsInv(states, actions, i);
    assert TxnOk(states[i].db, x);
    ShownIsSeen(states[i].db, x, c);
    k := ShownWasTaken(states, actions, i, t, x.seen.value.batch.plan, x.start, c);
  }

  // ----- The choice -----

  /** Row d can be handed out in transaction x: unused, not expired when x began, of the batch's plan. */
  ghost predicate EligibleAt(s: Sys, x: Txn, d: nat)
    requires x.seen.Some?
  {
    && d in s.db.credentials
    && var row := s.db.credentials[d];
    && !row.used
    && (row.expires.None? || row.expires.value > x.start)
    && (x.seen.value.batch.plan == "" || row.plan == x.seen.value.batch.plan)
  }

  /** The credential that a commit hands out was found by an earlier statement of its transaction,
      as the least eligible row among those not passed over; and if only rows locked by other
      transactions were passed over, it was the least eligible row that was not locked. */
  lemma TakenWasLeast(states: seq<Sys>, actions: seq<Action>, i: nat, t: nat, c: nat)
      returns (k: nat, skipped: set<nat>)
    requires Commits(states, actions, i, t) && TakenId(states[i].txns[t]) == Some(c)
    ensures states[i].txns[t].seen.Some? && k < i && actions[k] == Run(t, Take(skipped))
    ensures LockedRows(states[k], t) <= skipped && c !in skipped && EligibleAt(states[k], states[i].txns[t], c)
    ensures forall d :: EligibleAt(states[k], states[i].txns[t], d) && d !in skipped ==> c <= d
    ensures skipped == LockedRows(states[k], t) ==>
              forall d :: EligibleAt(states[k], states[i].txns[t], d) && d !in LockedRows(states[k], t) ==> c <= d
  {
    k := CommitWasTaken(states, actions, i, t, Some(c));
    skipped := actions[k].statement.skipped;
    var x := states[i].txns[t];
    assert IsFree(states[k].db, x.seen.value.batch.plan, x.start, skipped, c);
    forall d | EligibleAt(states[k], x, d) && d !in skipped ensures c <= d {
      assert IsFree(states[k].db, x.seen.value.batch.plan, x.start, skipped, d);
    }
  }

  /** A commit that answers credential_unavailable stems from a statement of its transaction at
      which every eligible row was passed over; so if only rows locked by other transactions were,
      every eligible row was locked. */
  lemma UnavailableWasLocked(states: seq<Sys>, actions: seq<Action>, i: nat, t: nat)
      returns (k: nat, skipped: set<nat>)
    requires Commits(states, actions, i, t) && RefusedForStock(states[i].txns[t])
    ensures states[i].txns[t].seen.Some? && k < i && actions[k] == Run(t, Take(skipped))
    ensures LockedRows(states[k], t) <= skipped
    ensures forall d :: EligibleAt(states[k], states[i].txns[t], d) ==> d in skipped
    ensures skipped == LockedRows(states[k], t) ==>
              forall d :: EligibleAt(states[k], states[i].txns[t], d) ==> d in LockedRows(states[k], t)
  {
    k := CommitWasTaken(states, actions, i, t, None);
    skipped := actions[k].statement.skipped;
    var x := states[i].txns[t];
    forall d | EligibleAt(states[k], x, d) ensures d in skipped {
      assert IsFree(states[k].db, x.seen.value.batch.plan, x.start, skipped, d) <==> d !in skipped;
    }
  }

  /** The atomic redemption that a commit amounts to passes over no row without a reason: each
      eligible row it passes over was passed over by the statement that took the credential, or
      has been imported since. */
  lemma SkippedForAReason(states: seq<Sys>, actions: seq<Action>, i: nat, t: nat, d: nat)
      returns (k: nat, skipped: set<nat>)
    requires Commits(states, actions, i, t)
    requires TakenId(states[i].txns[t]).Some? || RefusedForStock(states[i].txns[t])
    ensures states[i].txns[t].seen.Some? && k < i && actions[k] == Run(t, Take(skipped))
    ensures EligibleAt(states[i], states[i].txns[t], d) && d in CommitEnv(states[i].db, states[i].txns[t]).skipped ==>
              d in skipped || d !in states[k].db.credentials
  {
    var x := states[i].txns[t];
    if TakenId(x).Some? {
      k, skipped := TakenWasLeast(states, actions, i, t, TakenId(x).value);
    } else {
      k, skipped := UnavailableWasLocked(states, actions, i, t);
    }
    RunKeepsInv(states, actions, k);
    RunAgesStock(states, actions, k, i);
    if EligibleAt(states[i], x, d) && d in states[k].db.credentials {
      assert states[i].db.credentials[d] == states[k].db.credentials[d];
      assert EligibleAt(states[k], x, d);
    }
  }
}

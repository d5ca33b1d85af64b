/** The tables of a run, told as the changes that were committed, one after another. */
module RedeemHistory {
  import opened Base
  import opened CodeText
  import opened RequestHash
  import opened Tables
  import opened RedeemSpec
  import opened TableInvariant
  import opened RedeemProtocol
  import opened RedeemInvariant
  import opened RedeemProof
  import opened RedeemTheorems

  /** A committed change: a redemption of a code with its batch as it was read, a refusal of an
      unknown code, the answer of a batch request, or an administrator's operation. */
  datatype Change =
    | Redeemed(ticket: Ticket, id: nat, batch: Batch, env: Env)
    | NotFound(ticket: Ticket, redemptionId: nat)
    | GroupAnswered(key: string, hash: string, body: Body)
    | Operated(op: Operation)

  /** An operation on the tables alone. */
  function OperateOn(db: Db, op: Operation): (db': Db)
  {
    match op
    case ToggleBatchStatus(id) => if id in db.batches then ToggleBatch(db, id) else db
    case ToggleCodeStatus(id) => if id in db.codes then ToggleCode(db, id) else db
    case CreateBatch(id, batch, texts) => AddBatch(db, id, batch, texts)
    case Import(items) => ImportCredentials(db, items)
    case Delete(ids) => DeleteCredentials(db, ids)
  }

  function Apply(db: Db, c: Change): (db': Db)
  {
    match c
    case Redeemed(t, id, batch, env) => if id in db.codes then RedeemRow(db, t, id, batch, env).0 else db
    case NotFound(t, r) => Fail(db, t, None, None, InvalidCode, r)
    case GroupAnswered(key, hash, body) => db.(keys := StoreKey(db.keys, Some(key), hash, body))
    case Operated(op) => OperateOn(db, op)
  }

  /** The changes made one after another, from empty tables. */
  function Replay(changes: seq<Change>): (db: Db)
  {
    if changes == [] then EMPTY else Apply(Replay(changes[..|changes| - 1]), changes[|changes| - 1])
  }

  function CommitChange(db: Db, x: Txn): (c: Option<Change>)
  {
    match x.work
    case Group(_, _, key) =>
      if x.response.Some? then Some(GroupAnswered(key, HashOf(x.work), x.response.value)) else None
    case Single(t) =>
      if x.row.Some? && x.seen.Some? then Some(Redeemed(t, x.seen.value.id, x.seen.value.batch, CommitEnv(db, x)))
      else Some(NotFound(t, x.redemptionId))
  }

  /** What a step commits, if it commits anything. */
  function ChangeOf(s: Sys, a: Action): (c: Option<Change>)
  {
    match a
    case CommitTxn(t) => if t in s.txns then CommitChange(s.db, s.txns[t]) else None
    case Admin(op) => Some(Operated(op))
    case Begin(_, _, _) => None
    case Run(_, _) => None
    case Abort(_) => None
  }

  /** The changes that the first n steps of a run commit, in commit order. */
  function History(states: seq<Sys>, actions: seq<Action>, n: nat): (changes: seq<Change>)
    requires n <= |actions| < |states|
  {
    if n == 0 then []
    else
      var c := ChangeOf(states[n - 1], actions[n - 1]);
      History(states, actions, n - 1) + if c.Some? then [c.value] else []
  }

  lemma GroupCommitChange(s: Sys, x: Txn)
    requires TxnOk(s.db, x) && x.pc.Commit? && x.work.Group?
    ensures CommitChange(s.db, x).Some? && Overlay(s.db, x.w) == Apply(s.db, CommitChange(s.db, x).value)
  {
    CommitFacts(s.db, x);
    CommitIsGroup(s.db, x);
  }

  lemma FoundCommitChange(s: Sys, x: Txn)
    requires TxnOk(s.db, x) && IdsOk(s, x) && x.pc.Commit? && x.work.Single? && x.row.Some?
    ensures CommitChange(s.db, x).Some? && Overlay(s.db, x.w) == Apply(s.db, CommitChange(s.db, x).value)
  {
    CommitIsRedeemRow(s, x);
  }

  lemma UnknownCommitChange(s: Sys, x: Txn)
    requires TxnOk(s.db, x) && IdsOk(s, x) && x.pc.Commit? && x.work.Single? && x.row.None?
    ensures CommitChange(s.db, x).Some? && Overlay(s.db, x.w) == Apply(s.db, CommitChange(s.db, x).value)
  {
    CommitFacts(s.db, x);
    CommitIsRefusal(s, x);
  }

  /** One step changes the tables by what it commits. */
  lemma StepApplies(s: Sys, a: Action, s': Sys)
    requires Inv(s) && Step(s, a, s')
    ensures s'.db == match ChangeOf(s, a) case None => s.db case Some(c) => Apply(s.db, c)
  {
    if a.CommitTxn? {
      var x := s.txns[a.t];
      assert TxnOk(s.db, x) && IdsOk(s, x);
      if x.work.Group? {
        GroupCommitChange(s, x);
      } else if x.row.Some? {
        FoundCommitChange(s, x);
      } else {
        UnknownCommitChange(s, x);
      }
    }
  }

  lemma StepAppliesAt(states: seq<Sys>, actions: seq<Action>, i: nat)
    requires IsRun(states, actions) && i < |actions|
    ensures states[i + 1].db
         == match ChangeOf(states[i], actions[i]) case None => states[i].db case Some(c) => Apply(states[i].db, c)
  {
    RunKeepsInv(states, actions, i);
    assert StepAt(states, actions, i);
    StepApplies(states[i], actions[i], states[i + 1]);
  }

  lemma ReplayStep(changes: seq<Change>, c: Change)
    ensures Replay(changes + [c]) == Apply(Replay(changes), c)
  {
    assert (changes + [c])[..|changes|] == changes;
  }

  /** The tables of every reachable state are those that the committed changes make when they are
      applied one at a time, in commit order: however the statements were interleaved, the outcome
      is that of a serial history. */
  lemma {:induction false} TablesAreReplayed(states: seq<Sys>, actions: seq<Action>, n: nat)
    requires IsRun(states, actions) && n <= |actions|
    ensures states[n].db == Replay(History(states, actions, n))
  {
    if n > 0 {
      TablesAreReplayed(states, actions, n - 1);
      StepAppliesAt(states, actions, n - 1);
      var c := ChangeOf(states[n - 1], actions[n - 1]);
      if c.Some? {
        ReplayStep(History(states, actions, n - 1), c.value);
      } else {
        assert History(states, actions, n) == History(states, actions, n - 1);
      }
    }
  }
}

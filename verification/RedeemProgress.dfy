/** No two redemptions can wait for each other: locks are taken in one order, first the key, then
    the code row, and after that no statement waits. */
module RedeemProgress {
  import opened Base
  import opened Tables
  import opened RedeemSpec
  import opened TableInvariant
  import opened RedeemProtocol
  import opened RedeemInvariant
  import opened RedeemProof

  /** The transaction can run its next statement, or commit. */
  ghost predicate CanMove(s: Sys, t: nat)
    requires t in s.txns
  {
    (exists st :: Ready(s, t, s.txns[t], st)) || (s.txns[t].pc.Commit? && s.txns[t].response.Some?)
  }

  predicate Waits(pc: Pc) { pc.InsertKey? || pc.LockKey? || pc.LockCode? }

  /** The statement at a program counter that waits for nothing. */
  function StatementAt(s: Sys, t: nat, pc: Pc, work: Work): (st: Statement)
  {
    match pc
    case ReadCode => Read
    case CheckState => Check(0)
    case TakeCredential => Take(LockedRows(s, t))
    case Increment => Bump
    case LogSuccess => Succeeded(0)
    case Enqueue => AddEvent
    case MarkCredential => Mark
    case LogFailure => Failed
    case _ => if work.Single? then Store else StoreGroup(BatchResponse(true, 0, 0, 0, []))
  }

  lemma NoWaitMoves(s: Sys, t: nat)
    requires t in s.txns && TxnOk(s.db, s.txns[t]) && !s.txns[t].pc.Done? && !Waits(s.txns[t].pc)
    ensures CanMove(s, t)
  {
    var x := s.txns[t];
    if !x.pc.Commit? {
      assert Ready(s, t, x, StatementAt(s, t, x.pc, x.work));
    }
  }

  /** A code row's holder waits for nothing. */
  lemma CodeWaiterMoves(s: Sys, t: nat) returns (u: nat)
    requires Inv(s) && t in s.txns && s.txns[t].pc.LockCode?
    ensures u in s.txns && !s.txns[u].pc.Done? && CanMove(s, u)
  {
    var x := s.txns[t];
    assert TxnOk(s.db, x);
    if CodeFree(s, t, x.seen.value.id) {
      u := t;
      assert Ready(s, t, x, LockRow);
    } else {
      u :| u in s.txns && u != t && HoldsCode(s.txns[u], x.seen.value.id);
      assert TxnOk(s.db, s.txns[u]);
      NoWaitMoves(s, u);
    }
  }

  /** A key's holder waits for a code row at most. */
  lemma KeyWaiterMoves(s: Sys, t: nat) returns (u: nat)
    requires Inv(s) && t in s.txns && (s.txns[t].pc.InsertKey? || s.txns[t].pc.LockKey?)
    ensures u in s.txns && !s.txns[u].pc.Done? && CanMove(s, u)
  {
    var x := s.txns[t];
    assert TxnOk(s.db, x);
    if KeyFree(s, t, KeyOf(x.work).value) {
      u := t;
      assert Ready(s, t, x, if x.pc.InsertKey? then Insert else Lock);
    } else {
      u :| u in s.txns && u != t && HoldsKey(s.txns[u], KeyOf(x.work).value);
      assert TxnOk(s.db, s.txns[u]);
      if s.txns[u].pc.LockCode? {
        u := CodeWaiterMoves(s, u);
      } else {
        NoWaitMoves(s, u);
      }
    }
  }

  /** In every reachable state with an unfinished transaction, some unfinished transaction can run
      its next statement or commit: there is no deadlock. */
  lemma SomebodyCanMove(states: seq<Sys>, actions: seq<Action>, i: nat, t: nat) returns (u: nat)
    requires IsRun(states, actions) && i < |states| && t in states[i].txns && !states[i].txns[t].pc.Done?
    ensures u in states[i].txns && !states[i].txns[u].pc.Done? && CanMove(states[i], u)
  {
    RunKeepsInv(states, actions, i);
    var s := states[i];
    assert TxnOk(s.db, s.txns[t]);
    if s.txns[t].pc.LockCode? {
      u := CodeWaiterMoves(s, t);
    } else if Waits(s.txns[t].pc) {
      u := KeyWaiterMoves(s, t);
    } else {
      u := t;
      NoWaitMoves(s, t);
    }
  }

  // ----- A transaction is short -----

  /** No more statements than this are left. */
  function StatementsLeft(pc: Pc): (n: nat)
  {
    match pc
    case InsertKey => 12
    case LockKey => 11
    case ReadCode => 10
    case LockCode => 9
    case CheckState => 8
    case TakeCredential => 7
    case Increment => 6
    case LogSuccess => 5
    case Enqueue => 4
    case MarkCredential => 3
    case LogFailure => 3
    case StoreResponse => 2
    case Commit => 1
    case Done(_) => 0
  }

  lemma StatementLeavesFewer(s: Sys, t: nat, x: Txn, st: Statement)
    requires Ready(s, t, x, st)
    ensures StatementsLeft(RunStatement(s, t, x, st).pc) < StatementsLeft(x.pc)
  {
  }

  /** Every step of a transaction leaves it fewer statements, and no step of another gives it more. */
  lemma StepsLeaveFewer(s: Sys, a: Action, s': Sys, t: nat)
    requires Step(s, a, s') && t in s.txns
    ensures t in s'.txns
    ensures StatementsLeft(s'.txns[t].pc) <= StatementsLeft(s.txns[t].pc)
    ensures (a.Run? || a.CommitTxn?) && a.t == t ==> StatementsLeft(s'.txns[t].pc) < StatementsLeft(s.txns[t].pc)
  {
    if a.Run? && a.t == t {
      StatementLeavesFewer(s, t, s.txns[t], a.statement);
    }
  }

  /** The steps that transaction t has made among the first n. */
  function StepsOf(actions: seq<Action>, t: nat, n: nat): (k: nat)
    requires n <= |actions|
  {
    if n == 0 then 0
    else
      var a := actions[n - 1];
      StepsOf(actions, t, n - 1) + if (a.Run? || a.CommitTxn?) && a.t == t then 1 else 0
  }

  /** So over any run a transaction makes at most twelve steps, and has as many fewer left. */
  lemma {:induction false} TransactionsAreShort(states: seq<Sys>, actions: seq<Action>, t: nat, n: nat)
    requires IsRun(states, actions) && n <= |actions|
    ensures StepsOf(actions, t, n) + (if t in states[n].txns then StatementsLeft(states[n].txns[t].pc) else 0) <= 12
    ensures t !in states[n].txns ==> StepsOf(actions, t, n) == 0
  {
    if n > 0 {
      TransactionsAreShort(states, actions, t, n - 1);
      assert StepAt(states, actions, n - 1);
      if t in states[n - 1].txns {
        StepsLeaveFewer(states[n - 1], actions[n - 1], states[n], t);
      }
    }
  }
}

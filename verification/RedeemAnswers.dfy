/** What clients are told, over whole runs: which verdict, in what words a repeat is answered, and
    that no request fails unless the store does. */
module RedeemAnswers {
  import opened Base
  import opened CodeText
  import opened RequestHash
  import opened Tables
  import opened RedeemSpec
  import opened TableInvariant
  import opened RedeemProtocol
  import opened RedeemInvariant
  import opened RedeemProof
  import opened RedeemTheorems

  // ----- Verdicts and writes -----

  /** The verdict that a commit on a code row gives, by the columns of that row as committed, of the
      batch as it was read and of the clock at the check. */
  lemma VerdictsAreRight(states: seq<Sys>, actions: seq<Action>, i: nat, t: nat)
    requires Commits(states, actions, i, t)
    requires states[i].txns[t].work.Single? && states[i].txns[t].row.Some?
    ensures var db, x := states[i].db, states[i].txns[t];
            && x.seen.Some? && x.seen.value.id in db.codes && x.response.Some? && x.response.value.One?
            && db.codes[x.seen.value.id].text == x.work.ticket.code
            && var row, batch, a := db.codes[x.seen.value.id], x.seen.value.batch, x.response.value.response;
            var past := batch.expiresAt.Some? && batch.expiresAt.value < x.now;
            && (a.ok <==> a.result == Success)
            && if !row.enabled then a.result == CodeDisabled
               else if !batch.active then a.result == BatchDisabled
               else if past then a.result == Expired
               else if row.useCount >= batch.maxUses then a.result == CodeUsedUp
               else a.result == Success || (batch.assign && a.result == CredentialUnavailable)
  {
    CommitIsAtomicRedeem(states, actions, i, t);
    var db, x := states[i].db, states[i].txns[t];
    VerdictIs(db, x.work.ticket, x.seen.value.id, x.seen.value.batch, CommitEnv(db, x));
    RowWrites(db, x.work.ticket, x.seen.value.id, x.seen.value.batch, CommitEnv(db, x));
    HeldTextAt(states, actions, i, t);
  }

  lemma HeldTextAt(states: seq<Sys>, actions: seq<Action>, i: nat, t: nat)
    requires Commits(states, actions, i, t)
    requires states[i].txns[t].work.Single? && states[i].txns[t].row.Some?
    ensures var db, x := states[i].db, states[i].txns[t];
            x.seen.Some? && x.seen.value.id in db.codes && db.codes[x.seen.value.id].text == x.work.ticket.code
  {
    assert StepAt(states, actions, i);
    RunKeepsInv(states, actions, i);
    assert TxnOk(states[i].db, states[i].txns[t]);
    HeldText(states[i].db, states[i].txns[t]);
  }

  lemma HeldText(db: Db, x: Txn)
    requires TxnOk(db, x) && x.pc.Commit? && x.work.Single? && x.row.Some?
    ensures x.seen.Some? && x.seen.value.id in db.codes && db.codes[x.seen.value.id].text == x.work.ticket.code
  {
    CommitFacts(db, x);
  }

  /** What a commit on a code row changes: on a grant one more use of that code, one log row and one
      event; on a refusal the log row alone; besides the key's row and the credential. */
  lemma CommitWrites(states: seq<Sys>, actions: seq<Action>, i: nat, t: nat)
    requires Commits(states, actions, i, t)
    requires states[i].txns[t].work.Single? && states[i].txns[t].row.Some?
    ensures var db, db', x := states[i].db, states[i + 1].db, states[i].txns[t];
            && x.seen.Some? && x.seen.value.id in db.codes && x.response.Some? && x.response.value.One?
            && var id, a := x.seen.value.id, x.response.value.response;
            && db'.batches == db.batches
            && db'.codes == (if !a.ok then db.codes
                             else db.codes[id := db.codes[id].(useCount := db.codes[id].useCount + 1)])
            && db'.redemptions.Keys == db.redemptions.Keys + {x.redemptionId}
            && (forall r :: r in db.redemptions && r != x.redemptionId ==> db'.redemptions[r] == db.redemptions[r])
            && db'.outbox == if !a.ok || !x.seen.value.batch.webhook then db.outbox
                             else db.outbox[x.eventId := x.redemptionId]
  {
    CommitIsAtomicRedeem(states, actions, i, t);
    var db, x := states[i].db, states[i].txns[t];
    RowWrites(db, x.work.ticket, x.seen.value.id, x.seen.value.batch, CommitEnv(db, x));
  }

  // ----- What a transaction went by -----

  /** Which requests open a transaction, and for what. */
  lemma WorksAre(user: string, code: string, codes: seq<string>, key: string)
    ensures WorkOf(RedeemOne(user, code, key))
         == var t := Admit(user, code, key); if t.Some? then Some(Single(t.value)) else None
    ensures WorkOf(RedeemMany(user, codes, key))
         == if && 1 <= |TrimSpace(user)| <= 256 && codes != []
               && key != "" && Utf8Length(key) <= 128 && key == TrimSpace(key)
            then Some(Group(TrimSpace(user), codes, key))
            else None
  {
  }

  /** A transaction's work and start are those of the request that began it. */
  lemma {:induction false} BeganAs(states: seq<Sys>, actions: seq<Action>, i: nat, t: nat)
      returns (k: nat, q: Request, start: Time)
    requires IsRun(states, actions) && i < |states| && t in states[i].txns
    ensures k < i && actions[k] == Begin(t, q, start)
    ensures WorkOf(q) == Some(states[i].txns[t].work) && states[i].txns[t].start == start
  {
    if i > 0 {
      assert StepAt(states, actions, i - 1);
      if t in states[i - 1].txns {
        k, q, start := BeganAs(states, actions, i - 1, t);
        StepKeepsWork(states[i - 1], actions[i - 1], states[i], t);
      } else {
        k, q, start := i - 1, actions[i - 1].request, actions[i - 1].start;
      }
    }
  }

  lemma StepKeepsWork(s: Sys, a: Action, s': Sys, t: nat)
    requires Step(s, a, s') && t in s.txns
    ensures t in s'.txns && s'.txns[t].work == s.txns[t].work && s'.txns[t].start == s.txns[t].start
  {
    if a.Run? && a.t == t {
      StatementKeepsWork(s, t, s.txns[t], a.statement);
    }
  }

  lemma StatementKeepsWork(s: Sys, t: nat, x: Txn, st: Statement)
    requires Ready(s, t, x, st)
    ensures RunStatement(s, t, x, st).work == x.work && RunStatement(s, t, x, st).start == x.start
  {
  }

  ghost predicate SeesAt(s: Sys, t: nat, seen: Seen) { t in s.txns && s.txns[t].seen == Some(seen) }

  /** Transaction t reads a code row's id and its batch as it is committed then. */
  ghost predicate ReadsBatch(s: Sys, a: Action, t: nat, seen: Seen) {
    && a == Run(t, Read) && seen.id in s.db.codes && s.db.codes[seen.id].batchId in s.db.batches
    && seen.batch == s.db.batches[s.db.codes[seen.id].batchId]
  }

  lemma StatementReads(s: Sys, t: nat, x: Txn, st: Statement, seen: Seen)
    requires Ready(s, t, x, st) && RunStatement(s, t, x, st).seen == Some(seen)
    ensures x.seen == Some(seen) || ReadsBatch(s, Run(t, st), t, seen)
  {
  }

  /** The batch that a transaction goes by is the one it read. */
  lemma {:induction false} BatchWasRead(states: seq<Sys>, actions: seq<Action>, i: nat, t: nat, seen: Seen)
      returns (k: nat)
    requires IsRun(states, actions) && i < |states| && SeesAt(states[i], t, seen)
    ensures k < i && ReadsBatch(states[k], actions[k], t, seen)
  {
    if i > 0 {
      k := i - 1;
      assert StepAt(states, actions, k);
      if SeesAt(states[k], t, seen) {
        k := BatchWasRead(states, actions, k, t, seen);
      } else if actions[k].Run? && actions[k].t == t {
        StatementReads(states[k], t, states[k].txns[t], actions[k].statement, seen);
      }
    }
  }

  ghost predicate CheckedWith(s: Sys, t: nat, now: Time) {
    t in s.txns && s.txns[t].row.Some? && !s.txns[t].pc.CheckState? && s.txns[t].now == now
  }

  lemma StatementChecks(s: Sys, t: nat, x: Txn, st: Statement)
    requires TxnOk(s.db, x) && Ready(s, t, x, st)
    requires RunStatement(s, t, x, st).row.Some? && !RunStatement(s, t, x, st).pc.CheckState?
    ensures || (x.row.Some? && !x.pc.CheckState? && x.now == RunStatement(s, t, x, st).now)
            || st == Check(RunStatement(s, t, x, st).now)
  {
  }

  lemma StepChecks(states: seq<Sys>, actions: seq<Action>, i: nat, t: nat, now: Time)
    requires IsRun(states, actions) && i < |actions| && CheckedWith(states[i + 1], t, now)
    ensures CheckedWith(states[i], t, now) || actions[i] == Run(t, Check(now))
  {
    assert StepAt(states, actions, i);
    RunKeepsInv(states, actions, i);
    var s, a := states[i], actions[i];
    if a.Run? && a.t == t {
      assert TxnOk(s.db, s.txns[t]);
      StatementChecks(s, t, s.txns[t], a.statement);
    }
  }

  /** The clock that a transaction goes by is the one its check read. */
  lemma {:induction false} ClockWasChecked(states: seq<Sys>, actions: seq<Action>, i: nat, t: nat, now: Time)
      returns (k: nat)
    requires IsRun(states, actions) && i < |states| && CheckedWith(states[i], t, now)
    ensures k < i && actions[k] == Run(t, Check(now))
  {
    if i > 0 {
      k := i - 1;
      StepChecks(states, actions, k, t, now);
      if CheckedWith(states[k], t, now) {
        k := ClockWasChecked(states, actions, k, t, now);
      }
    }
  }

  /** Granted, with the time that the answer shows. */
  predicate Stamped(x: Txn, at: Time) {
    && x.work.Single? && x.response.Some? && x.response.value.One?
    && x.response.value.response.ok && x.response.value.response.redeemedAt == Some(at)
    && (x.pc.Enqueue? || x.pc.MarkCredential? || x.pc.StoreResponse? || x.pc.Commit?)
  }

  lemma StatementStamps(s: Sys, t: nat, x: Txn, st: Statement, at: Time)
    requires TxnOk(s.db, x) && Ready(s, t, x, st) && Stamped(RunStatement(s, t, x, st), at)
    ensures Stamped(x, at) || st == Succeeded(at)
  {
  }

  ghost predicate StampedAt(s: Sys, t: nat, at: Time) { t in s.txns && Stamped(s.txns[t], at) }

  lemma StepStamps(states: seq<Sys>, actions: seq<Action>, i: nat, t: nat, at: Time)
    requires IsRun(states, actions) && i < |actions| && StampedAt(states[i + 1], t, at)
    ensures StampedAt(states[i], t, at) || actions[i] == Run(t, Succeeded(at))
  {
    assert StepAt(states, actions, i);
    RunKeepsInv(states, actions, i);
    var s, a := states[i], actions[i];
    if a.Run? && a.t == t {
      assert TxnOk(s.db, s.txns[t]);
      StatementStamps(s, t, s.txns[t], a.statement, at);
    }
  }

  /** The time that a granted answer shows is the clock at its success. */
  lemma {:induction false} TimeWasStamped(states: seq<Sys>, actions: seq<Action>, i: nat, t: nat, at: Time)
      returns (k: nat)
    requires IsRun(states, actions) && i < |states| && StampedAt(states[i], t, at)
    ensures k < i && actions[k] == Run(t, Succeeded(at))
  {
    if i > 0 {
      k := i - 1;
      StepStamps(states, actions, k, t, at);
      if StampedAt(states[k], t, at) {
        k := TimeWasStamped(states, actions, k, t, at);
      }
    }
  }

  // ----- Unknown codes -----

  /** Refused because the code was not found. */
  predicate RefusedAsUnknown(x: Txn) {
    && x.work.Single? && x.row.None? && x.response == Some(One(Failure(InvalidCode)))
    && (x.pc.LogFailure? || x.pc.StoreResponse? || x.pc.Commit?)
  }

  /** Transaction t looks its code up, and no code row has that text. */
  ghost predicate FindsNoCode(s: Sys, a: Action, t: nat, text: string) {
    a == Run(t, Read) && forall c :: c in s.db.codes ==> s.db.codes[c].text != text
  }

  lemma StatementFindsNoCode(s: Sys, t: nat, x: Txn, st: Statement)
    requires CodesOk(s.db) && TxnOk(s.db, x) && Ready(s, t, x, st) && RefusedAsUnknown(RunStatement(s, t, x, st))
    ensures x.work == RunStatement(s, t, x, st).work
    ensures RefusedAsUnknown(x) || FindsNoCode(s, Run(t, st), t, x.work.ticket.code)
  {
    if st.Read? {
      forall c | c in s.db.codes ensures s.db.codes[c].text != x.work.ticket.code {
        assert CountOk(s.db, c);
      }
    }
  }

  ghost predicate UnknownAt(s: Sys, t: nat, text: string) {
    t in s.txns && RefusedAsUnknown(s.txns[t]) && s.txns[t].work.ticket.code == text
  }

  lemma StepFindsNoCode(states: seq<Sys>, actions: seq<Action>, i: nat, t: nat, text: string)
    requires IsRun(states, actions) && i < |actions| && UnknownAt(states[i + 1], t, text)
    ensures UnknownAt(states[i], t, text) || FindsNoCode(states[i], actions[i], t, text)
  {
    assert StepAt(states, actions, i);
    RunKeepsInv(states, actions, i);
    var s, a := states[i], actions[i];
    if a.Run? && a.t == t {
      assert TxnOk(s.db, s.txns[t]);
      StatementFindsNoCode(s, t, s.txns[t], a.statement);
    }
  }

  lemma {:induction false} UnknownWasLookedUp(states: seq<Sys>, actions: seq<Action>, i: nat, t: nat, text: string)
      returns (k: nat)
    requires IsRun(states, actions) && i < |states| && UnknownAt(states[i], t, text)
    ensures k < i && FindsNoCode(states[k], actions[k], t, text)
  {
    if i > 0 {
      k := i - 1;
      StepFindsNoCode(states, actions, k, t, text);
      if UnknownAt(states[k], t, text) {
        k := UnknownWasLookedUp(states, actions, k, t, text);
      }
    }
  }

  /** A commit that answers invalid_code stems from a statement of its transaction at which no code
      row had the code's text. */
  lemma InvalidCodeWasUnknown(states: seq<Sys>, actions: seq<Action>, i: nat, t: nat) returns (k: nat)
    requires Commits(states, actions, i, t) && states[i].txns[t].work.Single?
    requires states[i].txns[t].response == Some(One(Failure(InvalidCode)))
    ensures k < i && actions[k] == Run(t, Read)
    ensures forall c :: c in states[k].db.codes ==> states[k].db.codes[c].text != states[i].txns[t].work.ticket.code
  {
    var x := states[i].txns[t];
    if x.row.Some? {
      VerdictsAreRight(states, actions, i, t);
    }
    assert StepAt(states, actions, i);
    k := UnknownWasLookedUp(states, actions, i, t, x.work.ticket.code);
  }

  // ----- Where an outcome comes from -----

  /** Transaction t's statement that found its key taken by the same request. */
  ghost predicate FindsAnswer(s: Sys, a: Action, t: nat, body: Body) {
    && a == Run(t, Lock) && t in s.txns && KeyOf(s.txns[t].work).Some?
    && var k := KeyOf(s.txns[t].work).value;
    k in s.db.keys && s.db.keys[k].response == Some(body)
  }

  ghost predicate CommitsAnswer(s: Sys, a: Action, t: nat, body: Body) {
    a == CommitTxn(t) && t in s.txns && s.txns[t].response == Some(body)
  }

  ghost predicate EndedWith(s: Sys, t: nat, outcome: Outcome, work: Work) {
    t in s.txns && s.txns[t].pc == Done(outcome) && s.txns[t].work == work
  }

  lemma StepAnswers(s: Sys, a: Action, s': Sys, t: nat, body: Body, work: Work)
    requires Step(s, a, s') && EndedWith(s', t, Answer(body), work) && !EndedWith(s, t, Answer(body), work)
    ensures t in s.txns && s.txns[t].work == work
    ensures FindsAnswer(s, a, t, body) || CommitsAnswer(s, a, t, body)
  {
    if a.Run? && a.t == t {
      StatementAnswers(s, t, s.txns[t], a.statement, body);
    }
  }

  lemma StatementAnswers(s: Sys, t: nat, x: Txn, st: Statement, body: Body)
    requires t in s.txns && x == s.txns[t] && Ready(s, t, x, st) && RunStatement(s, t, x, st).pc == Done(Answer(body))
    ensures RunStatement(s, t, x, st).work == x.work && FindsAnswer(s, Run(t, st), t, body)
  {
  }

  /** An answer was committed by its own transaction, or found under its key. */
  lemma {:induction false} AnswerCameFrom(states: seq<Sys>, actions: seq<Action>, j: nat, t: nat, body: Body,
                                          work: Work)
      returns (m: nat)
    requires IsRun(states, actions) && j < |states| && EndedWith(states[j], t, Answer(body), work)
    ensures m < j && t in states[m].txns && states[m].txns[t].work == work
    ensures FindsAnswer(states[m], actions[m], t, body) || CommitsAnswer(states[m], actions[m], t, body)
  {
    if j > 0 {
      m := j - 1;
      if EndedWith(states[m], t, Answer(body), work) {
        m := AnswerCameFrom(states, actions, m, t, body, work);
      } else {
        assert StepAt(states, actions, m);
        StepAnswers(states[m], actions[m], states[j], t, body, work);
      }
    }
  }

  lemma StatementNeverBreaks(s: Sys, t: nat, x: Txn, st: Statement)
    requires TxnOk(s.db, x) && Ready(s, t, x, st)
    ensures !x.pc.Done? && RunStatement(s, t, x, st).pc != Done(Broken)
  {
  }

  lemma StepBreaks(s: Sys, a: Action, s': Sys, t: nat, work: Work)
    requires Inv(s) && Step(s, a, s') && EndedWith(s', t, Broken, work) && !EndedWith(s, t, Broken, work)
    ensures a == Abort(t)
  {
    if a.Run? && a.t == t {
      assert TxnOk(s.db, s.txns[t]);
      StatementNeverBreaks(s, t, s.txns[t], a.statement);
    }
  }

  /** No request fails unless the store fails it: the transaction was aborted. */
  lemma {:induction false} FailuresAreTheStores(states: seq<Sys>, actions: seq<Action>, j: nat, t: nat, work: Work)
      returns (m: nat)
    requires IsRun(states, actions) && j < |states| && EndedWith(states[j], t, Broken, work)
    ensures m < j && actions[m] == Abort(t)
  {
    if j > 0 {
      m := j - 1;
      if EndedWith(states[m], t, Broken, work) {
        m := FailuresAreTheStores(states, actions, m, t, work);
      } else {
        assert StepAt(states, actions, m);
        RunKeepsInv(states, actions, m);
        StepBreaks(states[m], actions[m], states[j], t, work);
      }
    }
  }

  // ----- Repeats -----

  lemma CommitEnds(states: seq<Sys>, actions: seq<Action>, i: nat, t: nat)
    requires Commits(states, actions, i, t)
    ensures states[i].txns[t].response.Some?
    ensures EndedWith(states[i + 1], t, Answer(states[i].txns[t].response.value), states[i].txns[t].work)
  {
    assert StepAt(states, actions, i);
  }

  /** After t's commit its key's row holds what is stored of its answer, for good. */
  lemma KeyHolds(states: seq<Sys>, actions: seq<Action>, i: nat, t: nat, j: nat)
    requires Commits(states, actions, i, t) && i < j < |states| && KeyOf(states[i].txns[t].work).Some?
    ensures var x := states[i].txns[t];
            var k := KeyOf(x.work).value;
            && x.response.Some?
            && EndedWith(states[j], t, Answer(x.response.value), x.work)
            && k in states[j].db.keys && states[j].db.keys[k] == KeyRow(HashOf(x.work), Some(Stored(x.response.value)))
  {
    CommitEnds(states, actions, i, t);
    FinishedStaysLong(states, actions, i + 1, j, t);
    RunKeepsInv(states, actions, j);
    assert TxnOk(states[j].db, states[j].txns[t]);
  }

  /** The repeat's answer is what the key's row holds. */
  lemma RepeatFindsRow(states: seq<Sys>, actions: seq<Action>, i: nat, t: nat, j: nat, u: nat, body: Body, work: Work)
    requires Commits(states, actions, i, t) && i < j < |states| && KeyOf(states[i].txns[t].work).Some? && u != t
    requires EndedWith(states[j], u, Answer(body), work) && KeyOf(work) == KeyOf(states[i].txns[t].work)
    ensures states[i].txns[t].response.Some? && body == Stored(states[i].txns[t].response.value)
  {
    KeyHolds(states, actions, i, t, j);
    var m := AnswerCameFrom(states, actions, j, u, body, work);
    if FindsAnswer(states[m], actions[m], u, body) {
      RunGrowsKeys(states, actions, m, j);
    } else {
      assert Commits(states, actions, m, u);
      if m < i {
        KeysCommitOnce(states, actions, m, i, u, t);
      } else if i < m {
        KeysCommitOnce(states, actions, i, m, t, u);
      }
    }
  }

  /** A request that repeats a committed one under the same key is told the same again, field by
      field, less the event: single redemptions and batches alike. */
  lemma RepeatsSayAgain(states: seq<Sys>, actions: seq<Action>, i: nat, t: nat, j: nat, u: nat)
    requires Commits(states, actions, i, t) && i < j < |states| && u in states[j].txns && u != t
    requires KeyOf(states[i].txns[t].work).Some? && KeyOf(states[j].txns[u].work) == KeyOf(states[i].txns[t].work)
    requires HashOf(states[j].txns[u].work) == HashOf(states[i].txns[t].work)
    requires states[j].txns[u].pc.Done? && !states[j].txns[u].pc.outcome.Broken?
    ensures states[i].txns[t].response.Some? && states[j].txns[u].pc.outcome.Answer?
    ensures BodySaysAgain(states[i].txns[t].response.value, states[j].txns[u].pc.outcome.body)
  {
    var x, y := states[i].txns[t], states[j].txns[u];
    CommitEnds(states, actions, i, t);
    KeyHolds(states, actions, i, t, j);
    SameKeySameAnswer(states, actions, j, t, u);
    RepeatFindsRow(states, actions, i, t, j, u, y.pc.outcome.body, y.work);
    StoredSaysAgain(x.response.value);
  }

  /** And when the first answer was a grant, the repeat shows the credential that was handed out: the
      data of the row that names the first request's redemption. */
  lemma RepeatsShowCredential(states: seq<Sys>, actions: seq<Action>, i: nat, t: nat, j: nat, u: nat, c: nat)
    requires Commits(states, actions, i, t) && i < j < |states| && u in states[j].txns && u != t
    requires states[i].txns[t].work.Single? && states[i].txns[t].response.Some?
    requires states[i].txns[t].response.value.One? && states[i].txns[t].response.value.response.ok
    requires KeyOf(states[i].txns[t].work).Some? && KeyOf(states[j].txns[u].work) == KeyOf(states[i].txns[t].work)
    requires HashOf(states[j].txns[u].work) == HashOf(states[i].txns[t].work)
    requires states[j].txns[u].pc.Done? && !states[j].txns[u].pc.outcome.Broken?
    requires c in states[i + 1].db.credentials
    requires states[i + 1].db.credentials[c].redemptionId == Some(states[i].txns[t].redemptionId)
    ensures states[j].txns[u].pc.outcome.Answer? && states[j].txns[u].pc.outcome.body.One?
    ensures states[j].txns[u].pc.outcome.body.response.credential == Some(states[i + 1].db.credentials[c].data)
  {
    RepeatsSayAgain(states, actions, i, t, j, u);
    AnswersTellTheTruth(states, actions, i, t);
    NamedByOne(states, actions, i, t, c);
  }

  /** The credential row that names a grant's redemption is the one it took. */
  lemma NamedByOne(states: seq<Sys>, actions: seq<Action>, i: nat, t: nat, c: nat)
    requires Commits(states, actions, i, t) && states[i].txns[t].work.Single? && c in states[i + 1].db.credentials
    requires states[i + 1].db.credentials[c].redemptionId == Some(states[i].txns[t].redemptionId)
    ensures TakenId(states[i].txns[t]) == Some(c)
  {
    var s, x := states[i], states[i].txns[t];
    assert StepAt(states, actions, i);
    RunKeepsInv(states, actions, i);
    assert TxnOk(s.db, x) && IdsOk(s, x);
    CommitHandsOutExactly(s, t, states[i + 1]);
    RedemptionIsNew(s, x);
    NewNameIsTaken(s.db, states[i + 1].db, x, c);
  }

  lemma NewNameIsTaken(db: Db, db': Db, x: Txn, c: nat)
    requires CredentialsOk(db) && HandsOut(db, x, db') && x.redemptionId !in db.redemptions
    requires c in db'.credentials && db'.credentials[c].redemptionId == Some(x.redemptionId)
    ensures TakenId(x) == Some(c)
  {
    if c in db.credentials && db.credentials[c].redemptionId.Some? {
      OldNamesAreOld(db, c);
    }
  }

  lemma OldNamesAreOld(db: Db, c: nat)
    requires CredentialsOk(db) && c in db.credentials && db.credentials[c].redemptionId.Some?
    ensures db.credentials[c].redemptionId.value in db.redemptions
  {
    assert CredentialOk(db, c);
  }

  lemma RedemptionIsNew(s: Sys, x: Txn)
    requires TxnOk(s.db, x) && IdsOk(s, x) && x.pc.Commit? && x.work.Single?
    ensures x.redemptionId !in s.db.redemptions
  {
    CommitFacts(s.db, x);
    assert x.redemptionId in x.w.redemptions;
  }
}

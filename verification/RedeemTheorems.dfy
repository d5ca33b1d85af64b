/** What the redemption service promises, for every run of the protocol: any number of requests,
    interleaved statement by statement, with administrators at work and failures at any point. */
module RedeemTheorems {
  import opened Base
  import opened CodeText
  import opened RequestHash
  import opened Tables
  import opened RedeemSpec
  import opened TableInvariant
  import opened RedeemProtocol
  import opened RedeemInvariant
  import opened RedeemProof

  // ----- Use counts -----

  /** Each code's use count is its number of committed successes and stays within its batch's limit. */
  lemma UseCountsAreExact(states: seq<Sys>, actions: seq<Action>, i: nat, c: nat)
    requires IsRun(states, actions) && i < |states| && c in states[i].db.codes
    ensures states[i].db.codes[c].useCount == |Successes(states[i].db.redemptions, c)|
    ensures states[i].db.codes[c].batchId in states[i].db.batches
    ensures |Successes(states[i].db.redemptions, c)| <= states[i].db.batches[states[i].db.codes[c].batchId].maxUses
  {
    RunKeepsInv(states, actions, i);
    assert CountOk(states[i].db, c);
  }

  /** Once the row is locked and the check has passed, the guarded increment finds its row, and
      marking a locked credential finds its row: neither of the two errors ever ends a request. */
  lemma GuardedUpdatesNeverMiss(states: seq<Sys>, actions: seq<Action>, i: nat, t: nat)
    requires IsRun(states, actions) && i < |states| && t in states[i].txns
    ensures var x := states[i].txns[t];
            && (x.pc.Increment? ==>
                  && x.seen.Some? && x.seen.value.id in states[i].db.codes
                  && states[i].db.codes[x.seen.value.id].enabled
                  && states[i].db.codes[x.seen.value.id].useCount < x.seen.value.batch.maxUses)
            && (x.pc.MarkCredential? ==> x.cred.Some? && x.cred.value.id in states[i].db.credentials)
            && x.pc != Done(StateChanged) && x.pc != Done(CredentialGone)
  {
    RunKeepsInv(states, actions, i);
    assert TxnOk(states[i].db, states[i].txns[t]);
  }

  // ----- Errors leave no trace -----

  /** The committed tables change at a commit or by an administrator, and at no other step. */
  lemma OnlyCommitsChangeTables(s: Sys, a: Action, s': Sys)
    requires Step(s, a, s') && !a.CommitTxn? && !a.Admin?
    ensures s'.db == s.db
  {
  }

  lemma FinishedStays(s: Sys, a: Action, s': Sys, t: nat)
    requires Step(s, a, s') && t in s.txns && s.txns[t].pc.Done?
    ensures t in s'.txns && s'.txns[t] == s.txns[t]
    ensures a != CommitTxn(t)
  {
  }

  lemma {:induction false} FinishedStaysLong(states: seq<Sys>, actions: seq<Action>, i: nat, j: nat, t: nat)
    requires IsRun(states, actions) && i <= j < |states|
    requires t in states[i].txns && states[i].txns[t].pc.Done?
    ensures t in states[j].txns && states[j].txns[t] == states[i].txns[t]
  {
    if i < j {
      FinishedStaysLong(states, actions, i, j - 1, t);
      assert StepAt(states, actions, j - 1);
      FinishedStays(states[j - 1], actions[j - 1], states[j], t);
    }
  }

  /** The step is one of transaction t's own. */
  predicate IsStepOf(a: Action, t: nat) { !a.Admin? && a.t == t }

  /** A request that ended in an error or a conflict has committed nothing, and none of its own steps
      has changed a table. */
  lemma ErrorsCommitNothing(states: seq<Sys>, actions: seq<Action>, i: nat, t: nat, j: nat)
    requires IsRun(states, actions) && i < |states| && t in states[i].txns
    requires states[i].txns[t].pc.Done? && !states[i].txns[t].pc.outcome.Answer?
    requires j < i
    ensures actions[j] != CommitTxn(t)
    ensures IsStepOf(actions[j], t) ==> states[j + 1].db == states[j].db
  {
    assert StepAt(states, actions, j);
    if IsStepOf(actions[j], t) && !actions[j].CommitTxn? {
      OnlyCommitsChangeTables(states[j], actions[j], states[j + 1]);
    }
    if actions[j] == CommitTxn(t) {
      FinishedStaysLong(states, actions, j + 1, i, t);
    }
  }

  /** Step i of the run commits transaction t. */
  ghost predicate Commits(states: seq<Sys>, actions: seq<Action>, i: nat, t: nat) {
    IsRun(states, actions) && i < |actions| && actions[i] == CommitTxn(t) && t in states[i].txns
  }

  // ----- Credentials -----

  /** In every state a used credential names a success of a batch that assigns its plan, and no
      two used credentials name the same one. */
  lemma UsedCredentialsAreApart(states: seq<Sys>, actions: seq<Action>, i: nat, c: nat, d: nat)
    requires IsRun(states, actions) && i < |states|
    requires c in states[i].db.credentials && d in states[i].db.credentials
    requires states[i].db.credentials[c].used && states[i].db.credentials[d].used
    ensures var r := states[i].db.credentials[c].redemptionId;
            && r.Some? && r.value in states[i].db.redemptions
            && var row := states[i].db.redemptions[r.value];
            && row.result == Success && row.batchId.Some? && row.batchId.value in states[i].db.batches
            && var batch := states[i].db.batches[row.batchId.value];
            batch.assign && (batch.plan == "" || batch.plan == states[i].db.credentials[c].plan)
    ensures c != d ==> states[i].db.credentials[c].redemptionId != states[i].db.credentials[d].redemptionId
  {
    RunKeepsInv(states, actions, i);
    assert CredentialOk(states[i].db, c);
  }

  /** A commit hands out one credential when the batch assigns credentials and none otherwise. The
      one it hands out was unused, of the batch's plan and unexpired when the transaction began. */
  lemma CommitHandsOutExactly(s: Sys, t: nat, s': Sys)
    requires Inv(s) && Step(s, CommitTxn(t), s')
    ensures HandsOut(s.db, s.txns[t], s'.db)
    ensures var x := s.txns[t];
            x.response.value.One? && x.response.value.response.ok ==>
              (TakenId(x).Some? <==> x.seen.Some? && x.seen.value.batch.assign)
  {
    var x := s.txns[t];
    assert TxnOk(s.db, x) && IdsOk(s, x);
    CommitFacts(s.db, x);
    WrittenHandsOut(s, x);
  }

  ghost predicate HandsOut(db: Db, x: Txn, db': Db) {
    match TakenId(x)
    case None => db'.credentials == db.credentials
    case Some(c) =>
      && c in db.credentials && x.seen.Some?
      && var row := db.credentials[c];
      && !row.used && (row.expires.None? || row.expires.value > x.start)
      && (x.seen.value.batch.plan == "" || row.plan == x.seen.value.batch.plan)
      && db'.credentials == db.credentials[c := row.(used := true, redemptionId := Some(x.redemptionId))]
      && x.redemptionId !in db.redemptions && x.redemptionId in db'.redemptions
  }

  lemma WrittenHandsOut(s: Sys, x: Txn)
    requires IdsOk(s, x) && Written(s.db, x, FinalKeys(x))
    ensures HandsOut(s.db, x, Overlay(s.db, x.w))
  {
    NothingOverlaid(s.db);
    if SuccessWritten(s.db, x, FinalKeys(x)) {
      CredentialsOverlay(s.db, x);
      assert x.redemptionId in x.w.redemptions;
    }
  }

  /** From one state on, a credential id is never brought back, and a row changes only once, from
      unused to used. */
  ghost predicate StockAges(s: Sys, s': Sys) {
    && s.issued <= s'.issued
    && forall c :: c in s'.db.credentials && c in s.issued ==>
         && c in s.db.credentials
         && (|| s'.db.credentials[c] == s.db.credentials[c]
             || (!s.db.credentials[c].used && s'.db.credentials[c].used))
  }

  lemma StepAgesStock(states: seq<Sys>, actions: seq<Action>, i: nat)
    requires IsRun(states, actions) && i < |actions|
    ensures StockAges(states[i], states[i + 1])
  {
    var s, a, s' := states[i], actions[i], states[i + 1];
    assert StepAt(states, actions, i);
    if a.CommitTxn? {
      RunKeepsInv(states, actions, i);
      CommitHandsOutExactly(s, a.t, s');
    } else if a.Admin? {
      OperationAgesStock(s, a.op, s');
    }
  }

  lemma OperationAgesStock(s: Sys, op: Operation, s': Sys)
    requires Step(s, Admin(op), s')
    ensures StockAges(s, s')
  {
  }

  lemma AgingAddsUp(a: Sys, b: Sys, c: Sys)
    requires StockAges(a, b) && StockAges(b, c)
    ensures StockAges(a, c)
  {
  }

  lemma {:induction false} RunAgesStock(states: seq<Sys>, actions: seq<Action>, i: nat, j: nat)
    requires IsRun(states, actions) && i <= j < |states|
    ensures StockAges(states[i], states[j])
  {
    if i < j {
      RunAgesStock(states, actions, i, j - 1);
      StepAgesStock(states, actions, j - 1);
      AgingAddsUp(states[i], states[j - 1], states[j]);
    }
  }

  /** No credential is handed out twice, whatever is deleted and imported in between. */
  lemma CredentialsAreHandedOutOnce(states: seq<Sys>, actions: seq<Action>, i: nat, j: nat, t: nat, u: nat, c: nat)
    requires Commits(states, actions, i, t) && Commits(states, actions, j, u) && i < j
    requires TakenId(states[i].txns[t]) == Some(c)
    ensures TakenId(states[j].txns[u]) != Some(c)
  {
    assert StepAt(states, actions, i) && StepAt(states, actions, j);
    RunKeepsInv(states, actions, i);
    RunKeepsInv(states, actions, i + 1);
    RunKeepsInv(states, actions, j);
    CommitHandsOutExactly(states[i], t, states[i + 1]);
    CommitHandsOutExactly(states[j], u, states[j + 1]);
    RunAgesStock(states, actions, i + 1, j);
    assert c in states[i + 1].db.credentials && states[i + 1].db.credentials[c].used;
  }

  // ----- Answers tell what was committed -----

  /** The log row, the event and the credential that go with a granted answer. */
  ghost predicate TellsTheTruth(db: Db, x: Txn, a: Response) {
    && x.redemptionId in db.redemptions
    && x.work.Single?
    && var row, t := db.redemptions[x.redemptionId], x.work.ticket;
    && row.result == Success == a.result
    && row.userId == a.userId == t.user && row.codeText == Normalize(a.code) == t.code && row.key == t.key
    && row.codeId.Some? && row.codeId.value in db.codes && db.codes[row.codeId.value].text == t.code
    && row.batchId == Some(db.codes[row.codeId.value].batchId) && row.batchId.value in db.batches
    && var batch := db.batches[row.batchId.value];
    && a.batch == batch.name && a.payload == batch.payload == row.payload && a.code == DisplayCode(t.code, batch.prefix)
    && a.redeemedAt.Some?
    && row.eventId == a.eventId && a.webhookPending == a.eventId.Some? == batch.webhook
    && (a.eventId.Some? ==> a.eventId.value in db.outbox && db.outbox[a.eventId.value] == x.redemptionId)
    && (match TakenId(x)
        case None => a.credential.None?
        case Some(c) =>
          && c in db.credentials && db.credentials[c].used && db.credentials[c].redemptionId == Some(x.redemptionId)
          && a.credential == Some(db.credentials[c].data))
  }

  /** A refusal tells its verdict and nothing else, logs it, and writes no code, credential or event. */
  ghost predicate RefusesPlainly(db: Db, db': Db, x: Txn, a: Response) {
    && x.work.Single? && x.redemptionId in db'.redemptions
    && var row, t := db'.redemptions[x.redemptionId], x.work.ticket;
    && row.result == a.result != Success
    && row.userId == t.user && row.codeText == t.code && row.key == t.key && row.eventId.None?
    && row.codeId == (if x.row.Some? && x.seen.Some? then Some(x.seen.value.id) else None)
    && a.credential.None? && a.payload == "" && a.redeemedAt.None? && a.eventId.None? && !a.webhookPending
    && db'.batches == db.batches && db'.codes == db.codes && db'.credentials == db.credentials
    && db'.outbox == db.outbox
  }

  lemma RefusalIsPlain(s: Sys, x: Txn)
    requires TxnOk(s.db, x) && RefusalWritten(s.db, x, FinalKeys(x))
    ensures RefusesPlainly(s.db, Overlay(s.db, x.w), x, x.response.value.response)
  {
    NothingOverlaid(s.db);
  }

  lemma SuccessTellsTheTruth(s: Sys, x: Txn)
    requires TxnOk(s.db, x) && SuccessWritten(s.db, x, FinalKeys(x))
    ensures TellsTheTruth(Overlay(s.db, x.w), x, x.response.value.response)
  {
    DisplayRoundTrip(x.work.ticket.code, ToUpper(x.seen.value.batch.prefix));
  }

  /** An answer that grants a redemption agrees with what its commit wrote: the log row has its
      user, code, batch, payload, key and event, the event is in the outbox, and the credential it
      shows is the one marked as used by this redemption. An answer that refuses has its verdict in
      the log and leaves every other table but the keys alone. */
  lemma AnswersTellTheTruth(states: seq<Sys>, actions: seq<Action>, i: nat, t: nat)
    requires Commits(states, actions, i, t) && states[i].txns[t].work.Single?
    ensures var db', x := states[i + 1].db, states[i].txns[t];
            && x.response.Some? && x.response.value.One?
            && var a := x.response.value.response;
            && (a.ok ==> TellsTheTruth(db', x, a))
            && (!a.ok ==> RefusesPlainly(states[i].db, db', x, a))
  {
    assert StepAt(states, actions, i);
    RunKeepsInv(states, actions, i);
    var s, x := states[i], states[i].txns[t];
    assert TxnOk(s.db, x);
    CommitFacts(s.db, x);
    if SuccessWritten(s.db, x, FinalKeys(x)) {
      SuccessTellsTheTruth(s, x);
    } else {
      RefusalIsPlain(s, x);
    }
  }

  // ----- Idempotency keys -----

  lemma CommitGrowsKeys(s: Sys, x: Txn)
    requires TxnOk(s.db, x) && x.pc.Commit?
    ensures KeysGrow(s.db, Overlay(s.db, x.w))
    ensures KeyOf(x.work).Some? ==> KeyOf(x.work).value !in s.db.keys && KeyOf(x.work).value in Overlay(s.db, x.w).keys
  {
    CommitTouches(s, x);
    OwnKeysGrow(s.db, x);
  }

  lemma StepGrowsKeys(states: seq<Sys>, actions: seq<Action>, i: nat)
    requires IsRun(states, actions) && i < |actions|
    ensures KeysGrow(states[i].db, states[i + 1].db)
  {
    var s, a := states[i], actions[i];
    assert StepAt(states, actions, i);
    if a.CommitTxn? {
      RunKeepsInv(states, actions, i);
      assert TxnOk(s.db, s.txns[a.t]);
      CommitGrowsKeys(s, s.txns[a.t]);
    } else if a.Admin? {
      assert Operate(s, a.op).keys == s.db.keys;
    }
  }

  lemma {:induction false} RunGrowsKeys(states: seq<Sys>, actions: seq<Action>, i: nat, j: nat)
    requires IsRun(states, actions) && i <= j < |states|
    ensures KeysGrow(states[i].db, states[j].db)
  {
    if i < j {
      RunGrowsKeys(states, actions, i, j - 1);
      StepGrowsKeys(states, actions, j - 1);
    }
  }

  /** At most one transaction with a given key ever commits. */
  lemma KeysCommitOnce(states: seq<Sys>, actions: seq<Action>, i: nat, j: nat, t: nat, u: nat)
    requires Commits(states, actions, i, t) && Commits(states, actions, j, u) && i < j
    requires KeyOf(states[i].txns[t].work).Some?
    ensures KeyOf(states[j].txns[u].work) != KeyOf(states[i].txns[t].work)
  {
    assert StepAt(states, actions, i) && StepAt(states, actions, j);
    OwnsItsKey(states, actions, i, t);
    OwnsItsKey(states, actions, j, u);
    RunGrowsKeys(states, actions, i + 1, j);
  }

  lemma OwnsItsKey(states: seq<Sys>, actions: seq<Action>, i: nat, t: nat)
    requires Commits(states, actions, i, t)
    ensures var k := KeyOf(states[i].txns[t].work);
            k.Some? ==> k.value !in states[i].db.keys && k.value in states[i + 1].db.keys
  {
    assert StepAt(states, actions, i);
    RunKeepsInv(states, actions, i);
    assert TxnOk(states[i].db, states[i].txns[t]);
    CommitGrowsKeys(states[i], states[i].txns[t]);
  }

  /** Every committed key row holds an answer, so a request that finds its key taken always ends at
      that statement, with the tables as they were. */
  lemma TakenKeysAnswerAtOnce(states: seq<Sys>, actions: seq<Action>, i: nat, t: nat)
    requires IsRun(states, actions) && i < |actions| && actions[i] == Run(t, Lock) && t in states[i + 1].txns
    ensures states[i + 1].db == states[i].db
    ensures states[i + 1].txns[t].pc.Done? && !states[i + 1].txns[t].pc.outcome.Broken?
  {
    assert StepAt(states, actions, i);
    RunKeepsInv(states, actions, i);
    assert TxnOk(states[i].db, states[i].txns[t]);
  }

  /** Of two requests under one key, if one was answered, then the other, unless the store failed
      it, got the same answer when it is the same request, and a conflict when it is not. */
  lemma SameKeySameAnswer(states: seq<Sys>, actions: seq<Action>, i: nat, t: nat, u: nat)
    requires IsRun(states, actions) && i < |states| && t in states[i].txns && u in states[i].txns
    requires states[i].txns[t].pc.Done? && states[i].txns[t].pc.outcome.Answer?
    requires states[i].txns[u].pc.Done? && !states[i].txns[u].pc.outcome.Broken?
    requires KeyOf(states[i].txns[t].work).Some? && KeyOf(states[i].txns[t].work) == KeyOf(states[i].txns[u].work)
    ensures var x, y := states[i].txns[t], states[i].txns[u];
            if HashOf(x.work) == HashOf(y.work)
            then y.pc.outcome.Answer? && Stored(y.pc.outcome.body) == Stored(x.pc.outcome.body)
            else y.pc.outcome == Conflict
  {
    RunKeepsInv(states, actions, i);
    assert TxnOk(states[i].db, states[i].txns[t]) && TxnOk(states[i].db, states[i].txns[u]);
  }

  /** What being the same request means: the trimmed user and the normalised code agree. */
  lemma SameHashSameTicket(a: Ticket, b: Ticket)
    requires IsClean(a.code) && IsClean(b.code)
    ensures TicketHash(a) == TicketHash(b) <==> a.user == b.user && a.code == b.code
  {
    SingleBytesDetermineRequest(a.user, a.code, b.user, b.code);
    NormalizeFixesClean(a.code);
    NormalizeFixesClean(b.code);
  }

  // ----- Every commit is one atomic redemption -----

  /** The rows that come before the credential the transaction took; all, if it took none. */
  function SkipTo(db: Db, c: Option<nat>): (s: set<nat>)
  {
    set d | d in db.credentials && (c.Some? ==> d < c.value)
  }

  lemma TheTakenIsLeastFree(db: Db, plan: string, start: Time, c: nat)
    requires c in db.credentials && Eligible(db.credentials[c], plan, start)
    ensures FreeCredential(db, plan, start, SkipTo(db, Some(c))) == Some(c)
  {
    assert IsFree(db, plan, start, SkipTo(db, Some(c)), c);
  }

  lemma NoneIsFree(db: Db, plan: string, start: Time)
    ensures FreeCredential(db, plan, start, SkipTo(db, None)) == None
  {
  }

  function CommitEnv(db: Db, x: Txn): (env: Env)
  {
    EnvOf(x).(skipped := SkipTo(db, TakenId(x)))
  }

  lemma TextFindsCode(db: Db, c: nat)
    requires CodesOk(db) && c in db.codes
    ensures LookupCode(db, db.codes[c].text) == Some(c)
  {
    assert CountOk(db, c);
    assert HasText(db, db.codes[c].text, c);
  }

  lemma SuccessIsRedeemRow(s: Sys, x: Txn)
    requires KeyStage(s.db, x) && SuccessWritten(s.db, x, FinalKeys(x))
    ensures (Overlay(s.db, x.w), x.response.value.response)
         == RedeemRow(s.db, x.work.ticket, x.seen.value.id, x.seen.value.batch, CommitEnv(s.db, x))
  {
    CommitIsSuccess(s.db, x);
    if x.cred.Some? {
      TheTakenIsLeastFree(s.db, x.seen.value.batch.plan, x.start, x.cred.value.id);
    }
  }

  lemma RefusalIsRedeemRow(s: Sys, x: Txn)
    requires KeyStage(s.db, x) && IdsOk(s, x) && RefusalWritten(s.db, x, FinalKeys(x))
    requires IsClean(x.work.ticket.code) && x.row.Some?
    ensures (Overlay(s.db, x.w), x.response.value.response)
         == RedeemRow(s.db, x.work.ticket, x.seen.value.id, x.seen.value.batch, CommitEnv(s.db, x))
  {
    CommitIsRefusal(s, x);
    NoneIsFree(s.db, x.seen.value.batch.plan, x.start);
  }

  lemma CommitIsRedeemRow(s: Sys, x: Txn)
    requires TxnOk(s.db, x) && IdsOk(s, x) && x.pc.Commit? && x.work.Single? && x.row.Some?
    ensures CodeHeld(s.db, x)
    ensures (Overlay(s.db, x.w), x.response.value.response)
         == RedeemRow(s.db, x.work.ticket, x.seen.value.id, x.seen.value.batch, CommitEnv(s.db, x))
  {
    CommitFacts(s.db, x);
    if SuccessWritten(s.db, x, FinalKeys(x)) {
      SuccessIsRedeemRow(s, x);
    } else {
      RefusalIsRedeemRow(s, x);
    }
  }

  /** A single redemption that found its code commits what RedeemRow does at that moment with the
      batch as it was read, which differs in the status only. That is exactly what AtomicRedeem does
      when it runs alone at that moment, if and only if the batch still has the status it was read
      with or the code is disabled. */
  lemma CommitIsAtomicRedeem(states: seq<Sys>, actions: seq<Action>, i: nat, t: nat)
    requires Commits(states, actions, i, t)
    requires states[i].txns[t].work.Single? && states[i].txns[t].row.Some?
    ensures var db, x := states[i].db, states[i].txns[t];
            && x.seen.Some? && x.seen.value.id in db.codes && x.response.Some? && x.response.value.One?
            && db.codes[x.seen.value.id].batchId in db.batches
            && SameTerms(x.seen.value.batch, db.batches[db.codes[x.seen.value.id].batchId])
            && (states[i + 1].db, x.response.value.response)
               == RedeemRow(db, x.work.ticket, x.seen.value.id, x.seen.value.batch, CommitEnv(db, x))
            && ((states[i + 1].db, Answered(x.response.value)) == AtomicRedeem(db, x.work.ticket, CommitEnv(db, x))
                <==> || x.seen.value.batch.active == db.batches[db.codes[x.seen.value.id].batchId].active
                     || !db.codes[x.seen.value.id].enabled)
  {
    assert StepAt(states, actions, i);
    RunKeepsInv(states, actions, i);
    var db, x := states[i].db, states[i].txns[t];
    assert TxnOk(db, x) && IdsOk(states[i], x);
    CommitIsRedeemRow(states[i], x);
    var id := x.seen.value.id;
    AtomicIsRedeemRow(db, x);
    StatusDecides(db, x.work.ticket, id, x.seen.value.batch, db.batches[db.codes[id].batchId], CommitEnv(db, x));
  }

  lemma AtomicIsRedeemRow(db: Db, x: Txn)
    requires CodesOk(db) && KeyStage(db, x) && CodeHeld(db, x)
    ensures var id := x.seen.value.id;
            var (db', r) := RedeemRow(db, x.work.ticket, id, db.batches[db.codes[id].batchId], CommitEnv(db, x));
            AtomicRedeem(db, x.work.ticket, CommitEnv(db, x)) == (db', Answered(One(r)))
  {
    TextFindsCode(db, x.seen.value.id);
  }

  /** A batch's status shows in the answer unless the code is disabled. */
  lemma StatusDecides(db: Db, t: Ticket, id: nat, seen: Batch, batch: Batch, env: Env)
    requires id in db.codes && SameTerms(seen, batch)
    ensures RedeemRow(db, t, id, seen, env) == RedeemRow(db, t, id, batch, env)
       <==> seen.active == batch.active || !db.codes[id].enabled
  {
    if seen.active != batch.active && db.codes[id].enabled {
      InactiveShows(db, t, id, seen, env);
      InactiveShows(db, t, id, batch, env);
    }
  }

  lemma InactiveShows(db: Db, t: Ticket, id: nat, batch: Batch, env: Env)
    requires id in db.codes && db.codes[id].enabled
    ensures RedeemRow(db, t, id, batch, env).1.result == BatchDisabled <==> !batch.active
  {
  }

  /** A request whose code was not found commits one log row and its key's answer; that is an atomic
      redemption if and only if the code has not been created in the meantime. */
  lemma UnknownCodeCommit(states: seq<Sys>, actions: seq<Action>, i: nat, t: nat)
    requires Commits(states, actions, i, t)
    requires states[i].txns[t].work.Single? && states[i].txns[t].row.None?
    ensures var db, x := states[i].db, states[i].txns[t];
            && x.response == Some(One(Failure(InvalidCode)))
            && states[i + 1].db == Fail(db, x.work.ticket, None, None, InvalidCode, x.redemptionId)
            && ((states[i + 1].db, Answered(x.response.value)) == AtomicRedeem(db, x.work.ticket, CommitEnv(db, x))
                <==> LookupCode(db, x.work.ticket.code).None?)
  {
    assert StepAt(states, actions, i);
    RunKeepsInv(states, actions, i);
    var db, x := states[i].db, states[i].txns[t];
    assert TxnOk(db, x) && IdsOk(states[i], x);
    CommitFacts(db, x);
    CommitIsRefusal(states[i], x);
    UnknownIsAtomicIff(db, x);
  }

  lemma UnknownIsAtomicIff(db: Db, x: Txn)
    requires x.work.Single? && KeyStage(db, x)
    ensures AtomicRedeem(db, x.work.ticket, CommitEnv(db, x))
         == (Fail(db, x.work.ticket, None, None, InvalidCode, x.redemptionId), Answered(One(Failure(InvalidCode))))
       <==> LookupCode(db, x.work.ticket.code).None?
  {
    var id := LookupCode(db, x.work.ticket.code);
    if id.Some? {
      FoundIsNotInvalid(db, x.work.ticket, id.value, db.batches[db.codes[id.value].batchId], CommitEnv(db, x));
    }
  }

  lemma FoundIsNotInvalid(db: Db, t: Ticket, id: nat, batch: Batch, env: Env)
    requires id in db.codes
    ensures RedeemRow(db, t, id, batch, env).1.result != InvalidCode
  {
  }
}

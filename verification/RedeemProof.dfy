/** The invariant of the redemption protocol is kept by every step. */
module RedeemProof {
  import opened Base
  import opened CodeText
  import opened RequestHash
  import opened Tables
  import opened RedeemSpec
  import opened TableInvariant
  import opened RedeemProtocol
  import opened RedeemInvariant

  // ----- Changes of the tables that a transaction does not notice -----

  ghost predicate KeysGrow(db: Db, db': Db) {
    forall k :: k in db.keys ==> k in db'.keys && db'.keys[k] == db.keys[k]
  }

  ghost predicate CatalogueGrows(db: Db, db': Db) {
    && (forall c :: c in db.codes ==>
          c in db'.codes && db'.codes[c].text == db.codes[c].text && db'.codes[c].batchId == db.codes[c].batchId)
    && (forall b :: b in db.batches ==> b in db'.batches && SameTerms(db'.batches[b], db.batches[b]))
  }

  /** Rows a transaction has locked are as they were. */
  ghost predicate LockedRowsStay(db: Db, db': Db, x: Txn) {
    && (x.keyLock && KeyOf(x.work).Some? && KeyOf(x.work).value !in db.keys ==> KeyOf(x.work).value !in db'.keys)
    && (x.row.Some? && x.seen.Some? && x.seen.value.id in db.codes ==>
          x.seen.value.id in db'.codes && db'.codes[x.seen.value.id] == db.codes[x.seen.value.id])
    && (x.cred.Some? && x.cred.value.id in db.credentials ==>
          x.cred.value.id in db'.credentials && db'.credentials[x.cred.value.id] == db.credentials[x.cred.value.id])
  }

  ghost predicate Unnoticed(db: Db, db': Db, x: Txn) {
    KeysGrow(db, db') && CatalogueGrows(db, db') && LockedRowsStay(db, db', x)
  }

  lemma SeenFrame(db: Db, db': Db, x: Txn)
    requires SeenOk(db, x) && CatalogueGrows(db, db')
    ensures SeenOk(db', x)
  {
  }

  lemma HeldFrame(db: Db, db': Db, x: Txn)
    requires CodeHeld(db, x) && Unnoticed(db, db', x)
    ensures CodeHeld(db', x)
    ensures Granted(db, x) ==> Granted(db', x)
  {
    SeenFrame(db, db', x);
  }

  lemma WrittenFrame(db: Db, db': Db, x: Txn, keys: map<string, KeyRow>)
    requires Written(db, x, keys) && Unnoticed(db, db', x)
    ensures Written(db', x, keys)
  {
    if SuccessWritten(db, x, keys) || (RefusalWritten(db, x, keys) && x.row.Some?) {
      HeldFrame(db, db', x);
    }
  }

  lemma TxnFrame(db: Db, db': Db, x: Txn)
    requires TxnOk(db, x) && Unnoticed(db, db', x)
    ensures TxnOk(db', x)
  {
    match x.pc
    case InsertKey =>
    case LockKey =>
    case ReadCode =>
    case LockCode => SeenFrame(db, db', x);
    case CheckState => HeldFrame(db, db', x);
    case TakeCredential => HeldFrame(db, db', x);
    case Increment => HeldFrame(db, db', x);
    case LogSuccess => HeldFrame(db, db', x);
    case Enqueue => HeldFrame(db, db', x);
    case MarkCredential => HeldFrame(db, db', x);
    case LogFailure =>
      if x.row.Some? {
        HeldFrame(db, db', x);
      }
    case StoreResponse => WrittenFrame(db, db', x, KeyWrite(x));
    case Commit => WrittenFrame(db, db', x, FinalKeys(x));
    case Done(_) =>
  }

  // ----- One statement, for the transaction that runs it -----

  lemma InsertKeyOk(db: Db, x: Txn)
    requires TxnOk(db, x) && x.pc.InsertKey?
    ensures TxnOk(db, DoInsertKey(db, x))
  {
  }

  lemma LockKeyOk(db: Db, x: Txn)
    requires KeysOk(db) && TxnOk(db, x) && x.pc.LockKey?
    ensures TxnOk(db, DoLockKey(db, x))
  {
    var k := KeyOf(x.work).value;
    assert Stored(db.keys[k].response.value) == db.keys[k].response.value;
  }

  lemma ReadCodeOk(db: Db, x: Txn)
    requires TxnOk(db, x) && x.pc.ReadCode?
    ensures TxnOk(db, DoReadCode(db, x))
  {
  }

  lemma LockCodeOk(db: Db, x: Txn)
    requires TxnOk(db, x) && x.pc.LockCode?
    ensures TxnOk(db, DoLockCode(db, x))
  {
  }

  lemma CheckStateOk(db: Db, x: Txn, now: Time)
    requires TxnOk(db, x) && x.pc.CheckState?
    ensures TxnOk(db, DoCheckState(x, now))
  {
  }

  lemma TakeCredentialOk(db: Db, x: Txn, skipped: set<nat>)
    requires TxnOk(db, x) && x.pc.TakeCredential?
    ensures TxnOk(db, DoTakeCredential(db, x, skipped))
  {
  }

  /** Under the lock, the guard of the increment is exactly what the state check established. */
  lemma GuardHolds(db: Db, x: Txn)
    requires TxnOk(db, x) && x.pc.Increment?
    ensures x.seen.Some? && x.seen.value.id in db.codes
    ensures var row := db.codes[x.seen.value.id]; row.enabled && row.useCount < x.seen.value.batch.maxUses
  {
  }

  lemma IncrementOk(db: Db, x: Txn)
    requires TxnOk(db, x) && x.pc.Increment?
    ensures TxnOk(db, DoIncrement(db, x))
  {
    GuardHolds(db, x);
  }

  /** A success whose last write is made goes on to its key's answer or to the commit. */
  lemma SuccessComplete(db: Db, x: Txn)
    requires KeyStage(db, x) && x.pc == AfterWrites(x)
    requires IsSingleClean(x) && SuccessWritten(db, x, KeyWrite(x))
    ensures TxnOk(db, x)
  {
    if x.pc.Commit? {
      assert FinalKeys(x) == KeyWrite(x);
    }
  }

  ghost predicate IsSingleClean(x: Txn) { x.work.Single? && IsClean(x.work.ticket.code) }

  lemma LogSuccessOk(db: Db, x: Txn, r: nat, e: nat, at: Time)
    requires TxnOk(db, x) && x.pc.LogSuccess?
    ensures TxnOk(db, DoLogSuccess(x, r, e, at))
  {
    var x' := DoLogSuccess(x, r, e, at);
    assert Granted(db, x') && KeyWrite(x') == KeyWrite(x) && Bumped(x') == Bumped(x);
    assert x'.response == Some(SuccessBody(x'));
    assert x'.w == Writes(Bumped(x'), map[], Entry(x'), map[], KeyWrite(x'));
    if x'.pc == AfterWrites(x') {
      SuccessComplete(db, x');
    }
  }

  lemma EnqueueOk(db: Db, x: Txn)
    requires TxnOk(db, x) && x.pc.Enqueue?
    ensures TxnOk(db, DoEnqueue(x))
  {
    var x' := DoEnqueue(x);
    assert Granted(db, x') && x'.response == Some(SuccessBody(x'));
    assert x'.w == Writes(Bumped(x'), map[], Entry(x'), Event(x'), KeyWrite(x'));
    if x'.pc == AfterWrites(x') {
      SuccessComplete(db, x');
    }
  }

  /** The credential row was locked, so marking it finds it, unchanged. */
  lemma MarkCredentialOk(db: Db, x: Txn)
    requires TxnOk(db, x) && x.pc.MarkCredential?
    ensures TxnOk(db, DoMarkCredential(db, x))
  {
    var x' := DoMarkCredential(db, x);
    assert CredentialHeld(db, x);
    assert Granted(db, x') && x'.response == Some(SuccessBody(x'));
    assert x'.w == Writes(Bumped(x'), Marked(x'), Entry(x'), Event(x'), KeyWrite(x'));
    SuccessComplete(db, x');
  }

  lemma LogFailureOk(db: Db, x: Txn, r: nat)
    requires TxnOk(db, x) && x.pc.LogFailure?
    ensures TxnOk(db, DoLogFailure(x, r))
  {
    var x' := DoLogFailure(x, r);
    assert Refused(db, x') && KeyWrite(x') == KeyWrite(x);
    assert RefusalWritten(db, x', KeyWrite(x'));
    if x'.pc.Commit? {
      assert FinalKeys(x') == KeyWrite(x');
    }
  }

  /** Writing the key's answer turns the pending key row into the final one and leaves the rest. */
  lemma StoreResponseOk(db: Db, x: Txn, body: Body)
    requires TxnOk(db, x) && x.pc.StoreResponse?
    requires if x.work.Single? then x.response == Some(body) else body.Many?
    ensures TxnOk(db, DoStoreResponse(db, x, body))
  {
    var x' := DoStoreResponse(db, x, body);
    assert x.w.keys == KeyWrite(x);
    assert x'.w == x.w.(keys := FinalKeys(x'));
    if x.work.Single? {
      if SuccessWritten(db, x, KeyWrite(x)) {
        assert SuccessWritten(db, x', FinalKeys(x'));
      } else {
        assert RefusalWritten(db, x', FinalKeys(x'));
      }
    } else {
      assert GroupWritten(x', FinalKeys(x'));
    }
  }

  predicate IsReading(st: Statement) { st.Insert? || st.Lock? || st.Read? || st.LockRow? || st.Check? || st.Take? }

  predicate IsLogging(st: Statement) { st.Bump? || st.Succeeded? || st.AddEvent? || st.Mark? }

  lemma ReadingOk(s: Sys, t: nat, x: Txn, st: Statement)
    requires KeysOk(s.db) && TxnOk(s.db, x) && Ready(s, t, x, st) && IsReading(st)
    ensures TxnOk(s.db, RunStatement(s, t, x, st))
  {
    match st
    case Insert => InsertKeyOk(s.db, x);
    case Lock => LockKeyOk(s.db, x);
    case Read => ReadCodeOk(s.db, x);
    case LockRow => LockCodeOk(s.db, x);
    case Check(now) => CheckStateOk(s.db, x, now);
    case Take(skipped) => TakeCredentialOk(s.db, x, skipped);
  }

  lemma LoggingOk(s: Sys, t: nat, x: Txn, st: Statement)
    requires TxnOk(s.db, x) && Ready(s, t, x, st) && IsLogging(st)
    ensures TxnOk(s.db, RunStatement(s, t, x, st))
  {
    match st
    case Bump => IncrementOk(s.db, x);
    case Succeeded(at) => LogSuccessOk(s.db, x, s.nextRedemption, s.nextEvent, at);
    case AddEvent => EnqueueOk(s.db, x);
    case Mark => MarkCredentialOk(s.db, x);
  }

  lemma AnsweringOk(s: Sys, t: nat, x: Txn, st: Statement)
    requires TxnOk(s.db, x) && Ready(s, t, x, st) && !IsReading(st) && !IsLogging(st)
    ensures TxnOk(s.db, RunStatement(s, t, x, st))
  {
    match st
    case Failed => LogFailureOk(s.db, x, s.nextRedemption);
    case Store => StoreResponseOk(s.db, x, x.response.value);
    case StoreGroup(group) => StoreResponseOk(s.db, x, Many(group));
  }

  lemma StatementOk(s: Sys, t: nat, x: Txn, st: Statement)
    requires KeysOk(s.db) && TxnOk(s.db, x) && Ready(s, t, x, st)
    ensures TxnOk(s.db, RunStatement(s, t, x, st))
  {
    if IsReading(st) {
      ReadingOk(s, t, x, st);
    } else if IsLogging(st) {
      LoggingOk(s, t, x, st);
    } else {
      AnsweringOk(s, t, x, st);
    }
  }

  // ----- One statement, for the other transactions -----

  ghost predicate CredentialFree(s: Sys, t: nat, c: nat) {
    forall u :: u in s.txns && u != t ==> !HoldsCredential(s.txns[u], c)
  }

  /** A statement takes only locks that are free and only ids that are new. */
  ghost predicate Reaches(s: Sys, t: nat, x: Txn, x': Txn) {
    && x'.work == x.work
    && (x'.keyLock && KeyOf(x.work).Some? ==> x.keyLock || KeyFree(s, t, KeyOf(x.work).value))
    && (x'.row.Some? && x'.seen.Some? ==> (x.row.Some? && x.seen == x'.seen) || CodeFree(s, t, x'.seen.value.id))
    && (x'.cred.Some? ==> x'.cred == x.cred || CredentialFree(s, t, x'.cred.value.id))
    && x'.w.redemptions.Keys <= x.w.redemptions.Keys + {s.nextRedemption}
    && EventIds(x') <= EventIds(x) + {s.nextEvent}
  }

  lemma TakenIsFree(s: Sys, t: nat, x: Txn, skipped: set<nat>)
    requires x.seen.Some? && SkipsLocked(s, t, skipped)
    ensures var c := FreeCredential(s.db, x.seen.value.batch.plan, x.start, skipped);
            c.Some? ==> CredentialFree(s, t, c.value)
  {
  }

  lemma ReadingReaches(s: Sys, t: nat, x: Txn, st: Statement)
    requires TxnOk(s.db, x) && Ready(s, t, x, st) && IsReading(st)
    ensures Reaches(s, t, x, RunStatement(s, t, x, st))
  {
    if st.Take? {
      TakenIsFree(s, t, x, st.skipped);
    }
  }

  lemma WritingReaches(s: Sys, t: nat, x: Txn, st: Statement)
    requires TxnOk(s.db, x) && Ready(s, t, x, st) && !IsReading(st)
    ensures Reaches(s, t, x, RunStatement(s, t, x, st))
  {
  }

  lemma ReachKeepsApart(s: Sys, t: nat, x: Txn, x': Txn, u: nat)
    requires u in s.txns && u != t && Reaches(s, t, x, x')
    requires Apart(x, s.txns[u]) && IdsOk(s, s.txns[u])
    ensures Apart(x', s.txns[u]) && Apart(s.txns[u], x')
  {
    var y := s.txns[u];
    assert KeyOf(x.work).Some? && KeyFree(s, t, KeyOf(x.work).value) ==> !HoldsKey(y, KeyOf(x.work).value);
    assert x'.seen.Some? && CodeFree(s, t, x'.seen.value.id) ==> !HoldsCode(y, x'.seen.value.id);
    assert x'.cred.Some? && CredentialFree(s, t, x'.cred.value.id) ==> !HoldsCredential(y, x'.cred.value.id);
  }

  lemma ReadingDrawsNothing(s: Sys, t: nat, x: Txn, st: Statement)
    requires TxnOk(s.db, x) && IdsOk(s, x) && Ready(s, t, x, st) && IsReading(st)
    ensures IdsOk(Drawn(s, st), RunStatement(s, t, x, st))
  {
    assert EventIds(RunStatement(s, t, x, st)) <= EventIds(x);
  }

  lemma WritingDraws(s: Sys, t: nat, x: Txn, st: Statement)
    requires TxnOk(s.db, x) && IdsOk(s, x) && SequencesOk(s) && Ready(s, t, x, st) && !IsReading(st)
    ensures IdsOk(Drawn(s, st), RunStatement(s, t, x, st))
  {
    var x' := RunStatement(s, t, x, st);
    if st.Succeeded? {
      assert EventIds(x') <= {s.nextEvent};
    } else if st.AddEvent? {
      assert EventIds(x') == {x.eventId} && x.eventId in EventIds(x);
    } else {
      assert EventIds(x') <= EventIds(x);
    }
  }

  lemma DrawsWhatItWrites(s: Sys, t: nat, x: Txn, st: Statement)
    requires TxnOk(s.db, x) && IdsOk(s, x) && SequencesOk(s) && Ready(s, t, x, st)
    ensures IdsOk(Drawn(s, st), RunStatement(s, t, x, st))
  {
    if IsReading(st) {
      ReadingDrawsNothing(s, t, x, st);
    } else {
      WritingDraws(s, t, x, st);
    }
  }

  /** Replacing one transaction by one that is in order and apart from all others. */
  lemma ReplaceKeepsInv(s: Sys, t: nat, x': Txn, s': Sys)
    requires Inv(s)
    requires s' == s.(txns := s.txns[t := x'], nextRedemption := s'.nextRedemption, nextEvent := s'.nextEvent)
    requires s.nextRedemption <= s'.nextRedemption && s.nextEvent <= s'.nextEvent
    requires TxnOk(s.db, x') && IdsOk(s', x')
    requires forall u :: u in s.txns && u != t ==> Apart(x', s.txns[u]) && Apart(s.txns[u], x')
    ensures Inv(s')
  {
    forall u | u in s'.txns ensures TxnOk(s'.db, s'.txns[u]) && IdsOk(s', s'.txns[u]) {
      assert u != t ==> TxnOk(s.db, s.txns[u]) && IdsOk(s, s.txns[u]);
    }
  }

  lemma StatementKeepsInv(s: Sys, t: nat, st: Statement, s': Sys)
    requires Inv(s) && Step(s, Run(t, st), s')
    ensures Inv(s')
  {
    var x := s.txns[t];
    assert TxnOk(s.db, x) && IdsOk(s, x);
    StatementOk(s, t, x, st);
    if IsReading(st) {
      ReadingReaches(s, t, x, st);
    } else {
      WritingReaches(s, t, x, st);
    }
    DrawsWhatItWrites(s, t, x, st);
    var x' := s'.txns[t];
    assert IdsOk(s', x');
    forall u | u in s.txns && u != t ensures Apart(x', s.txns[u]) && Apart(s.txns[u], x') {
      assert Apart(x, s.txns[u]) && IdsOk(s, s.txns[u]);
      ReachKeepsApart(s, t, x, x', u);
    }
    ReplaceKeepsInv(s, t, x', s');
  }

  lemma BlankIsApart(x: Txn, y: Txn)
    requires Blank(x) && !x.pc.Enqueue?
    ensures Apart(x, y) && Apart(y, x) && EventIds(x) == {}
  {
  }

  lemma BeginAndAbortKeepInv(s: Sys, a: Action, s': Sys)
    requires Inv(s) && Step(s, a, s') && (a.Begin? || a.Abort?)
    ensures Inv(s')
  {
    var x' := s'.txns[a.t];
    assert a.Abort? ==> TxnOk(s.db, s.txns[a.t]);
    assert TxnOk(s.db, x');
    forall u | u in s.txns && u != a.t ensures Apart(x', s.txns[u]) && Apart(s.txns[u], x') {
      BlankIsApart(x', s.txns[u]);
    }
    BlankIsApart(x', x');
    ReplaceKeepsInv(s, a.t, x', s');
  }

  // ----- Commit -----

  function TakenId(x: Txn): (c: Option<nat>)
  {
    if x.cred.Some? then Some(x.cred.value.id) else None
  }

  lemma SuccessIsAllowed(s: Sys, x: Txn)
    requires TxnOk(s.db, x) && IdsOk(s, x) && x.pc.Commit? && SuccessWritten(s.db, x, FinalKeys(x))
    ensures SucceedPre(s.db, x.work.ticket, x.seen.value.id, x.seen.value.batch, TakenId(x), EnvOf(x))
  {
    assert x.redemptionId in x.w.redemptions;
    assert x.seen.value.batch.webhook ==> x.eventId in EventIds(x);
  }

  lemma KeysOverlay(db: Db, x: Txn)
    requires KeyStage(db, x) && x.response.Some?
    ensures db.keys + FinalKeys(x) == StoreKey(db.keys, KeyOf(x.work), HashOf(x.work), x.response.value)
  {
  }

  lemma CredentialsOverlay(db: Db, x: Txn)
    requires x.seen.Some? && (x.cred.Some? ==> CredentialHeld(db, x))
    ensures db.credentials + Marked(x)
         == if x.cred.None? then db.credentials
            else var c := x.cred.value.id; db.credentials[c := MarkUsed(db.credentials[c], x.redemptionId)]
  {
  }

  lemma NewRowsOverlay(db: Db, x: Txn)
    requires CodeHeld(db, x)
    ensures var row := db.codes[x.seen.value.id];
            db.codes + Bumped(x) == db.codes[x.seen.value.id := row.(useCount := row.useCount + 1)]
    ensures var id := x.seen.value.id;
            db.redemptions + Entry(x)
            == db.redemptions[x.redemptionId :=
                 SuccessEntry(x.work.ticket, id, db.codes[id].batchId, x.seen.value.batch, x.eventId)]
    ensures db.outbox + Event(x)
         == if x.seen.value.batch.webhook then db.outbox[x.eventId := x.redemptionId] else db.outbox
  {
  }

  lemma CommitFacts(db: Db, x: Txn)
    requires TxnOk(db, x) && x.pc.Commit?
    ensures KeyStage(db, x) && x.response.Some? && Written(db, x, FinalKeys(x))
    ensures x.work.Single? ==> IsClean(x.work.ticket.code) && x.response.value.One?
  {
  }

  /** A success commits as if all of it happened at the commit; only the batch's status may have
      been read earlier. */
  lemma CommitIsSuccess(db: Db, x: Txn)
    requires KeyStage(db, x) && SuccessWritten(db, x, FinalKeys(x))
    ensures Overlay(db, x.w) == Succeed(db, x.work.ticket, x.seen.value.id, x.seen.value.batch, TakenId(x), EnvOf(x))
  {
    KeysOverlay(db, x);
    CredentialsOverlay(db, x);
    NewRowsOverlay(db, x);
  }

  function RefusedCode(x: Txn): (c: Option<nat>)
  {
    if x.row.Some? && x.seen.Some? then Some(x.seen.value.id) else None
  }

  function RefusedBatch(x: Txn): (b: Option<nat>)
  {
    if x.row.Some? then Some(x.row.value.batchId) else None
  }

  lemma CommitIsRefusal(s: Sys, x: Txn)
    requires KeyStage(s.db, x) && IdsOk(s, x) && RefusalWritten(s.db, x, FinalKeys(x)) && IsClean(x.work.ticket.code)
    ensures FailPre(s.db, x.work.ticket, x.response.value.response.result, x.redemptionId)
    ensures Overlay(s.db, x.w)
         == Fail(s.db, x.work.ticket, RefusedCode(x), RefusedBatch(x), x.response.value.response.result, x.redemptionId)
  {
    assert x.redemptionId in x.w.redemptions;
    KeysOverlay(s.db, x);
    NothingOverlaid(s.db);
    var entry := FailureEntry(x.work.ticket, RefusedCode(x), RefusedBatch(x), x.response.value.response.result);
    assert s.db.redemptions + Refusal(x) == s.db.redemptions[x.redemptionId := entry];
  }

  lemma NothingOverlaid(db: Db)
    ensures db.codes + map[] == db.codes && db.credentials + map[] == db.credentials
    ensures db.redemptions + map[] == db.redemptions && db.outbox + map[] == db.outbox
  {
  }

  lemma CommitIsGroup(db: Db, x: Txn)
    requires KeyStage(db, x) && x.response.Some? && GroupWritten(x, FinalKeys(x))
    ensures Overlay(db, x.w) == db.(keys := StoreKey(db.keys, Some(x.work.key), HashOf(x.work), x.response.value))
  {
    KeysOverlay(db, x);
    NothingOverlaid(db);
  }

  lemma CommitKeepsDb(s: Sys, x: Txn)
    requires DbOk(s.db) && TxnOk(s.db, x) && IdsOk(s, x) && x.pc.Commit?
    ensures DbOk(Overlay(s.db, x.w))
  {
    CommitFacts(s.db, x);
    if SuccessWritten(s.db, x, FinalKeys(x)) {
      SuccessIsAllowed(s, x);
      CommitIsSuccess(s.db, x);
      SucceedKeepsDb(s.db, x.work.ticket, x.seen.value.id, x.seen.value.batch, TakenId(x), EnvOf(x));
    } else if RefusalWritten(s.db, x, FinalKeys(x)) {
      CommitIsRefusal(s, x);
      var v := x.response.value.response.result;
      FailKeepsDb(s.db, x.work.ticket, RefusedCode(x), RefusedBatch(x), v, x.redemptionId);
    } else {
      CommitIsGroup(s.db, x);
      StoreGroupKeepsDb(s.db, x.work.key, HashOf(x.work), x.response.value);
    }
  }

  /** What a commit overlays: rows it had locked, and rows that are new. */
  ghost predicate TouchesOwn(db: Db, x: Txn) {
    && KeyStage(db, x) && x.w.keys == FinalKeys(x)
    && (x.w.codes == map[] || (CodeHeld(db, x) && x.w.codes == Bumped(x)))
    && (|| x.w.credentials == map[]
        || (x.seen.Some? && x.cred.Some? && CredentialHeld(db, x) && x.w.credentials == Marked(x)))
  }

  lemma CommitTouches(s: Sys, x: Txn)
    requires TxnOk(s.db, x) && x.pc.Commit?
    ensures TouchesOwn(s.db, x) && x.response.Some?
  {
    CommitFacts(s.db, x);
  }

  lemma OwnKeysGrow(db: Db, x: Txn)
    requires KeyStage(db, x) && x.w.keys == FinalKeys(x)
    ensures KeysGrow(db, Overlay(db, x.w))
  {
  }

  lemma OwnCatalogueGrows(db: Db, x: Txn)
    requires TouchesOwn(db, x)
    ensures CatalogueGrows(db, Overlay(db, x.w))
  {
  }

  lemma OthersRowsStay(db: Db, x: Txn, y: Txn)
    requires TouchesOwn(db, x) && Apart(x, y)
    ensures LockedRowsStay(db, Overlay(db, x.w), y)
  {
  }

  lemma CommitUnnoticed(s: Sys, x: Txn, y: Txn)
    requires TxnOk(s.db, x) && x.pc.Commit? && Apart(x, y)
    ensures Unnoticed(s.db, Overlay(s.db, x.w), y)
  {
    CommitTouches(s, x);
    OwnKeysGrow(s.db, x);
    OwnCatalogueGrows(s.db, x);
    OthersRowsStay(s.db, x, y);
  }

  lemma CommitAnswers(s: Sys, x: Txn)
    requires TxnOk(s.db, x) && x.pc.Commit?
    ensures TxnOk(Overlay(s.db, x.w), Finish(x, Answer(x.response.value)))
  {
    CommitTouches(s, x);
  }

  lemma CommitKeepsSequences(s: Sys, x: Txn)
    requires SequencesOk(s) && TxnOk(s.db, x) && IdsOk(s, x) && x.pc.Commit?
    ensures SequencesOk(s.(db := Overlay(s.db, x.w)))
  {
    CommitTouches(s, x);
    assert forall e :: e in x.w.outbox ==> e in EventIds(x);
  }

  lemma CommitKeepsIds(s: Sys, x: Txn, y: Txn)
    requires Apart(x, y) && IdsOk(s, y)
    ensures IdsOk(s.(db := Overlay(s.db, x.w)), y)
  {
    assert forall e :: e in x.w.outbox ==> e in EventIds(x);
  }

  lemma CommitKeepsOther(s: Sys, t: nat, s': Sys, u: nat)
    requires Step(s, CommitTxn(t), s') && u in s.txns && u != t
    requires TxnOk(s.db, s.txns[t]) && TxnOk(s.db, s.txns[u]) && IdsOk(s, s.txns[u]) && Apart(s.txns[t], s.txns[u])
    ensures TxnOk(s'.db, s'.txns[u]) && IdsOk(s', s'.txns[u])
    ensures Apart(s'.txns[t], s'.txns[u]) && Apart(s'.txns[u], s'.txns[t])
  {
    var x, y := s.txns[t], s.txns[u];
    CommitUnnoticed(s, x, y);
    TxnFrame(s.db, s'.db, y);
    CommitKeepsIds(s, x, y);
    BlankIsApart(s'.txns[t], y);
  }

  lemma CommitKeepsOthers(s: Sys, t: nat, s': Sys)
    requires Inv(s) && Step(s, CommitTxn(t), s')
    ensures forall u :: u in s'.txns && u != t ==> TxnOk(s'.db, s'.txns[u]) && IdsOk(s', s'.txns[u])
    ensures forall u, v :: u in s'.txns && v in s'.txns && u != v ==> Apart(s'.txns[u], s'.txns[v])
  {
    forall u | u in s.txns && u != t
      ensures TxnOk(s'.db, s'.txns[u]) && IdsOk(s', s'.txns[u])
      ensures Apart(s'.txns[t], s'.txns[u]) && Apart(s'.txns[u], s'.txns[t])
    {
      assert TxnOk(s.db, s.txns[t]) && TxnOk(s.db, s.txns[u]) && IdsOk(s, s.txns[u]) && Apart(s.txns[t], s.txns[u]);
      CommitKeepsOther(s, t, s', u);
    }
  }

  lemma CommitKeepsInv(s: Sys, t: nat, s': Sys)
    requires Inv(s) && Step(s, CommitTxn(t), s')
    ensures Inv(s')
  {
    var x := s.txns[t];
    assert TxnOk(s.db, x) && IdsOk(s, x);
    CommitKeepsOthers(s, t, s');
    CommitKeepsTables(s, t, s');
  }

  lemma CommitKeepsTables(s: Sys, t: nat, s': Sys)
    requires DbOk(s.db) && SequencesOk(s) && Step(s, CommitTxn(t), s')
    requires TxnOk(s.db, s.txns[t]) && IdsOk(s, s.txns[t])
    ensures DbOk(s'.db) && SequencesOk(s') && TxnOk(s'.db, s'.txns[t]) && IdsOk(s', s'.txns[t])
  {
    var x := s.txns[t];
    CommitKeepsDb(s, x);
    CommitKeepsSequences(s, x);
    CommitAnswers(s, x);
    BlankIsApart(s'.txns[t], s'.txns[t]);
  }

  // ----- Administrators -----

  lemma OperationKeepsDb(s: Sys, op: Operation)
    requires Inv(s) && Allowed(s, op)
    ensures DbOk(Operate(s, op))
  {
    match op
    case ToggleBatchStatus(id) => ToggleBatchKeepsDb(s.db, id);
    case ToggleCodeStatus(id) => ToggleCodeKeepsDb(s.db, id);
    case CreateBatch(id, batch, texts) => AddBatchKeepsDb(s.db, id, batch, texts);
    case Import(items) => StockKeepsDb(s.db, s.db.credentials + items);
    case Delete(ids) => StockKeepsDb(s.db, s.db.credentials - ids);
  }

  /** A row lock keeps an operation away from every row a transaction has locked. */
  lemma OperationUnnoticed(s: Sys, op: Operation, u: nat)
    requires Allowed(s, op) && SequencesOk(s) && u in s.txns
    ensures Unnoticed(s.db, Operate(s, op), s.txns[u])
  {
    var y := s.txns[u];
    match op
    case ToggleBatchStatus(id) =>
    case ToggleCodeStatus(id) => assert !HoldsCode(y, id);
    case CreateBatch(id, batch, texts) =>
    case Import(items) =>
    case Delete(ids) => assert forall c :: c in ids ==> !HoldsCredential(y, c);
  }

  lemma OperationKeepsInv(s: Sys, op: Operation, s': Sys)
    requires Inv(s) && Step(s, Admin(op), s')
    ensures Inv(s')
  {
    OperationKeepsDb(s, op);
    forall u | u in s'.txns ensures TxnOk(s'.db, s'.txns[u]) && IdsOk(s', s'.txns[u]) {
      assert TxnOk(s.db, s.txns[u]) && IdsOk(s, s.txns[u]);
      OperationUnnoticed(s, op, u);
      TxnFrame(s.db, s'.db, s.txns[u]);
    }
  }

  // ----- Every step, every run -----

  lemma StepKeepsInv(s: Sys, a: Action, s': Sys)
    requires Inv(s) && Step(s, a, s')
    ensures Inv(s')
  {
    match a
    case Begin(_, _, _) => BeginAndAbortKeepInv(s, a, s');
    case Run(t, st) => StatementKeepsInv(s, t, st, s');
    case CommitTxn(t) => CommitKeepsInv(s, t, s');
    case Abort(_) => BeginAndAbortKeepInv(s, a, s');
    case Admin(op) => OperationKeepsInv(s, op, s');
  }

  lemma {:induction false} RunKeepsInv(states: seq<Sys>, actions: seq<Action>, i: nat)
    requires IsRun(states, actions) && i < |states|
    ensures Inv(states[i])
  {
    if i == 0 {
      EmptyIsOk();
    } else {
      RunKeepsInv(states, actions, i - 1);
      assert StepAt(states, actions, i - 1);
      StepKeepsInv(states[i - 1], actions[i - 1], states[i]);
    }
  }
}

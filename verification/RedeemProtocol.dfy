/** Redemptions running side by side (internal/redeem/service.go over internal/store/queries.sql.go).

    A transaction is a program counter, its local variables, the row locks it has taken and the new
    row versions it has written. Nothing it wrote is visible to others before it commits. A row lock
    is held from the statement that takes it until the transaction ends. `FOR UPDATE` waits for the
    lock and then reads the latest committed row; an insert of a key waits for an open insert of the
    same key; batches are read without a lock. Any transaction may end in an error at any point. */
module RedeemProtocol {
  import opened Base
  import opened CodeText
  import opened RequestHash
  import opened Tables
  import opened RedeemSpec
  import opened TableInvariant

  /** What a transaction is for: one redemption, or the key of a whole batch request, whose
      redemptions are transactions of their own without a key. */
  datatype Work = Single(ticket: Ticket) | Group(user: string, codes: seq<string>, key: string)

  function KeyOf(w: Work): (k: Option<string>)
  {
    match w
    case Single(t) => t.key
    case Group(_, _, key) => Some(key)
  }

  function HashOf(w: Work): (h: string)
  {
    match w
    case Single(t) => TicketHash(t)
    case Group(user, codes, _) => BatchBytes(user, codes)
  }

  /** How a transaction ended: StateChanged and CredentialGone are the errors of Redeem's two
      guarded updates, Broken is every failure of the store. */
  datatype Outcome = Answer(body: Body) | Conflict | StateChanged | CredentialGone | Broken

  datatype Pc =
    | InsertKey | LockKey
    | ReadCode | LockCode | CheckState | TakeCredential
    | Increment | LogSuccess | Enqueue | MarkCredential
    | LogFailure
    | StoreResponse | Commit
    | Done(outcome: Outcome)

  /** The code row's id and the batch row that the statement's snapshot showed. */
  datatype Seen = Seen(id: nat, batch: Batch)

  datatype Taken = Taken(id: nat, row: Credential)

  /** New row versions, overlaid on the committed tables at commit. */
  datatype Writes = Writes(
    codes: map<nat, Code>, credentials: map<nat, Credential>, redemptions: map<nat, Redemption>,
    outbox: map<nat, nat>, keys: map<string, KeyRow>)

  const NO_WRITES: Writes := Writes(map[], map[], map[], map[], map[])

  function Overlay(db: Db, w: Writes): (db': Db)
  {
    Db(db.batches, db.codes + w.codes, db.credentials + w.credentials, db.redemptions + w.redemptions,
       db.outbox + w.outbox, db.keys + w.keys)
  }

  datatype Txn = Txn(
    work: Work, pc: Pc, start: Time,
    keyLock: bool,        // holds the lock on its key
    seen: Option<Seen>,
    row: Option<Code>,    // the locked code row; Some exactly while the lock on seen.id is held
    now: Time,
    cred: Option<Taken>,  // the locked credential row
    redemptionId: nat, eventId: nat, at: Time,
    response: Option<Body>,
    w: Writes)

  /** `issued` holds every credential id that is or was in a committed row: BIGSERIAL hands no id out
      twice, but an import that drew its ids earlier may commit later. */
  datatype Sys = Sys(db: Db, txns: map<nat, Txn>, nextRedemption: nat, nextEvent: nat, issued: set<nat>)

  const INITIAL: Sys := Sys(EMPTY, map[], 0, 0, {})

  function EnvOf(x: Txn): (env: Env)
  {
    Env(x.start, x.now, {}, x.redemptionId, x.eventId, x.at)
  }

  function Fresh(work: Work, start: Time): (x: Txn)
  {
    Txn(work, if KeyOf(work).Some? then InsertKey else ReadCode, start,
        false, None, None, 0, None, 0, 0, 0, None, NO_WRITES)
  }

  /** The end of a transaction: its locks are released and nothing of it is left but its outcome. */
  function Finish(x: Txn, outcome: Outcome): (x': Txn)
  {
    Fresh(x.work, x.start).(pc := Done(outcome))
  }

  // ----- Row locks -----

  predicate HoldsKey(x: Txn, k: string) { x.keyLock && KeyOf(x.work) == Some(k) }

  predicate HoldsCode(x: Txn, c: nat) { x.row.Some? && x.seen.Some? && x.seen.value.id == c }

  predicate HoldsCredential(x: Txn, c: nat) { x.cred.Some? && x.cred.value.id == c }

  ghost predicate KeyFree(s: Sys, t: nat, k: string) {
    forall u :: u in s.txns && u != t ==> !HoldsKey(s.txns[u], k)
  }

  ghost predicate CodeFree(s: Sys, t: nat, c: nat) {
    forall u :: u in s.txns && u != t ==> !HoldsCode(s.txns[u], c)
  }

  ghost predicate CodeUnlocked(s: Sys, c: nat) {
    forall u :: u in s.txns ==> !HoldsCode(s.txns[u], c)
  }

  ghost predicate CredentialUnlocked(s: Sys, c: nat) {
    forall u :: u in s.txns ==> !HoldsCredential(s.txns[u], c)
  }

  /** The credential rows that other transactions have locked. */
  function LockedRows(s: Sys, t: nat): (ids: set<nat>)
  {
    set u | u in s.txns && u != t && s.txns[u].cred.Some? :: s.txns[u].cred.value.id
  }

  /** SKIP LOCKED passes over every row that another transaction has locked. */
  ghost predicate SkipsLocked(s: Sys, t: nat, skipped: set<nat>) {
    forall u :: u in s.txns && u != t && s.txns[u].cred.Some? ==> s.txns[u].cred.value.id in skipped
  }

  // ----- One statement of a transaction -----

  function AfterKey(work: Work): (pc: Pc) { if work.Single? then ReadCode else StoreResponse }

  /** CreateIdempotencyKey: INSERT .. ON CONFLICT DO NOTHING. */
  function DoInsertKey(db: Db, x: Txn): (x': Txn)
    requires KeyOf(x.work).Some?
  {
    var k := KeyOf(x.work).value;
    if k in db.keys then x.(pc := LockKey)
    else x.(pc := AfterKey(x.work), keyLock := true, w := x.w.(keys := map[k := KeyRow(HashOf(x.work), None)]))
  }

  /** LockIdempotencyKeyByKey and the comparison of hashes. */
  function DoLockKey(db: Db, x: Txn): (x': Txn)
    requires KeyOf(x.work).Some?
  {
    var k := KeyOf(x.work).value;
    if k !in db.keys then Finish(x, Broken)
    else if db.keys[k].hash != HashOf(x.work) then Finish(x, Conflict)
    else if db.keys[k].response.None? then x.(pc := AfterKey(x.work), keyLock := true)
    else Finish(x, Answer(db.keys[k].response.value))
  }

  function FailWith(x: Txn, v: Verdict): (x': Txn)
  {
    x.(pc := LogFailure, response := Some(One(Failure(v))))
  }

  /** The snapshot of GetCodeByCode's statement: the code's id and its batch as committed now. */
  function DoReadCode(db: Db, x: Txn): (x': Txn)
    requires x.work.Single?
  {
    var id := LookupCode(db, x.work.ticket.code);
    if id.None? then FailWith(x, InvalidCode)
    else x.(pc := LockCode, seen := Some(Seen(id.value, db.batches[db.codes[id.value].batchId])))
  }

  /** The lock is granted: the code row is read again in its latest committed version. */
  function DoLockCode(db: Db, x: Txn): (x': Txn)
    requires x.seen.Some? && x.seen.value.id in db.codes
  {
    x.(pc := CheckState, row := Some(db.codes[x.seen.value.id]))
  }

  function DoCheckState(x: Txn, now: Time): (x': Txn)
    requires x.seen.Some? && x.row.Some?
  {
    var bad := CheckCodeState(x.row.value, x.seen.value.batch, now);
    if bad.Some? then FailWith(x.(now := now), bad.value)
    else x.(now := now, pc := if x.seen.value.batch.assign then TakeCredential else Increment)
  }

  /** GetUnusedCredential. */
  function DoTakeCredential(db: Db, x: Txn, skipped: set<nat>): (x': Txn)
    requires x.seen.Some?
  {
    var id := FreeCredential(db, x.seen.value.batch.plan, x.start, skipped);
    if id.None? then FailWith(x, CredentialUnavailable)
    else x.(pc := Increment, cred := Some(Taken(id.value, db.credentials[id.value])))
  }

  /** IncrementCodeUseCount, with its guard. */
  function DoIncrement(db: Db, x: Txn): (x': Txn)
    requires x.seen.Some? && x.seen.value.id in db.codes
  {
    var id := x.seen.value.id;
    var row := db.codes[id];
    if row.enabled && row.useCount < x.seen.value.batch.maxUses
    then x.(pc := LogSuccess, w := x.w.(codes := map[id := row.(useCount := row.useCount + 1)]))
    else Finish(x, StateChanged)
  }

  function AfterWrites(x: Txn): (pc: Pc) { if KeyOf(x.work).Some? then StoreResponse else Commit }

  function AfterEvent(x: Txn): (pc: Pc) { if x.cred.Some? then MarkCredential else AfterWrites(x) }

  /** CreateRedemption on the success path, and the answer that goes with it. */
  function DoLogSuccess(x: Txn, r: nat, e: nat, at: Time): (x': Txn)
    requires x.work.Single? && x.seen.Some? && x.row.Some?
  {
    var t, batch := x.work.ticket, x.seen.value.batch;
    var data := if x.cred.Some? then Some(x.cred.value.row) else None;
    var env := EnvOf(x).(redemptionId := r, eventId := e, at := at);
    x.(pc := if batch.webhook then Enqueue else AfterEvent(x),
       redemptionId := r, eventId := e, at := at,
       response := Some(One(SuccessResponse(t, batch, data, env))),
       w := x.w.(redemptions := map[r := SuccessEntry(t, x.seen.value.id, x.row.value.batchId, batch, e)]))
  }

  function DoEnqueue(x: Txn): (x': Txn)
  {
    x.(pc := AfterEvent(x), w := x.w.(outbox := map[x.eventId := x.redemptionId]))
  }

  /** MarkCredentialUsed returns a row or the redemption fails. */
  function DoMarkCredential(db: Db, x: Txn): (x': Txn)
    requires x.cred.Some?
  {
    var id := x.cred.value.id;
    if id !in db.credentials then Finish(x, CredentialGone)
    else x.(pc := AfterWrites(x), w := x.w.(credentials := map[id := MarkUsed(db.credentials[id], x.redemptionId)]))
  }

  /** recordFailure. */
  function DoLogFailure(x: Txn, r: nat): (x': Txn)
    requires x.work.Single? && x.response.Some? && x.response.value.One?
  {
    var codeId := if x.row.Some? && x.seen.Some? then Some(x.seen.value.id) else None;
    var batchId := if x.row.Some? then Some(x.row.value.batchId) else None;
    var entry := FailureEntry(x.work.ticket, codeId, batchId, x.response.value.response.result);
    x.(pc := AfterWrites(x), redemptionId := r, w := x.w.(redemptions := map[r := entry]))
  }

  /** SetIdempotencyResponse on the version of the key's row that the transaction sees. */
  function DoStoreResponse(db: Db, x: Txn, body: Body): (x': Txn)
    requires KeyOf(x.work).Some?
  {
    var k := KeyOf(x.work).value;
    var hash := if k in x.w.keys then x.w.keys[k].hash else if k in db.keys then db.keys[k].hash else HashOf(x.work);
    x.(pc := Commit, response := Some(body), w := x.w.(keys := map[k := KeyRow(hash, Some(Stored(body)))]))
  }

  // ----- Steps of the whole system -----

  datatype Request =
    | RedeemOne(user: string, code: string, key: string)
    | RedeemMany(user: string, codes: seq<string>, key: string)

  /** The transaction that a request opens once its input checks pass; a batch request opens one
      only for its key. */
  function WorkOf(q: Request): (w: Option<Work>)
    ensures w.Some? && w.value.Single? ==> IsClean(w.value.ticket.code) && w.value.ticket.code != ""
  {
    match q
    case RedeemOne(user, code, key) =>
      var t := Admit(user, code, key);
      if t.None? then None else Some(Single(t.value))
    case RedeemMany(user, codes, key) =>
      var user' := TrimSpace(user);
      if user' == "" || |user'| > MAX_USER_LENGTH || codes == [] || !ValidKey(key) || key == "" then None
      else Some(Group(user', codes, key))
  }

  /** The statements of a transaction, each with what it takes from outside. */
  datatype Statement =
    | Insert
    | Lock
    | Read
    | LockRow
    | Check(now: Time)
    | Take(skipped: set<nat>)
    | Bump
    | Succeeded(at: Time)
    | AddEvent
    | Mark
    | Failed
    | Store
    | StoreGroup(group: BatchResponse)

  /** Administrators' statements, each a transaction of its own. */
  datatype Operation =
    | ToggleBatchStatus(id: nat)
    | ToggleCodeStatus(id: nat)
    | CreateBatch(batchId: nat, batch: Batch, texts: map<nat, string>)
    | Import(items: map<nat, Credential>)
    | Delete(ids: set<nat>)

  datatype Action =
    | Begin(t: nat, request: Request, start: Time)
    | Run(t: nat, statement: Statement)
    | CommitTxn(t: nat)
    | Abort(t: nat)
    | Admin(op: Operation)

  /** A statement can run: the transaction is at it, and the lock it asks for is free. */
  ghost predicate Ready(s: Sys, t: nat, x: Txn, st: Statement) {
    match st
    case Insert => x.pc.InsertKey? && KeyOf(x.work).Some? && KeyFree(s, t, KeyOf(x.work).value)
    case Lock => x.pc.LockKey? && KeyOf(x.work).Some? && KeyFree(s, t, KeyOf(x.work).value)
    case Read => x.pc.ReadCode? && x.work.Single?
    case LockRow => x.pc.LockCode? && x.seen.Some? && x.seen.value.id in s.db.codes && CodeFree(s, t, x.seen.value.id)
    case Check(_) => x.pc.CheckState? && x.seen.Some? && x.row.Some?
    case Take(skipped) => x.pc.TakeCredential? && x.seen.Some? && SkipsLocked(s, t, skipped)
    case Bump => x.pc.Increment? && x.seen.Some? && x.seen.value.id in s.db.codes
    case Succeeded(_) => x.pc.LogSuccess? && x.work.Single? && x.seen.Some? && x.row.Some?
    case AddEvent => x.pc.Enqueue?
    case Mark => x.pc.MarkCredential? && x.cred.Some?
    case Failed => x.pc.LogFailure? && x.work.Single? && x.response.Some? && x.response.value.One?
    case Store => x.pc.StoreResponse? && x.work.Single? && KeyOf(x.work).Some? && x.response.Some?
    case StoreGroup(_) => x.pc.StoreResponse? && x.work.Group?
  }

  ghost function RunStatement(s: Sys, t: nat, x: Txn, st: Statement): (x': Txn)
    requires Ready(s, t, x, st)
  {
    match st
    case Insert => DoInsertKey(s.db, x)
    case Lock => DoLockKey(s.db, x)
    case Read => DoReadCode(s.db, x)
    case LockRow => DoLockCode(s.db, x)
    case Check(now) => DoCheckState(x, now)
    case Take(skipped) => DoTakeCredential(s.db, x, skipped)
    case Bump => DoIncrement(s.db, x)
    case Succeeded(at) => DoLogSuccess(x, s.nextRedemption, s.nextEvent, at)
    case AddEvent => DoEnqueue(x)
    case Mark => DoMarkCredential(s.db, x)
    case Failed => DoLogFailure(x, s.nextRedemption)
    case Store => DoStoreResponse(s.db, x, x.response.value)
    case StoreGroup(group) => DoStoreResponse(s.db, x, Many(group))
  }

  /** Sequences move on when a row is inserted and never go back. */
  function Drawn(s: Sys, st: Statement): (s': Sys)
  {
    s.(nextRedemption := s.nextRedemption + (if st.Succeeded? || st.Failed? then 1 else 0),
       nextEvent := s.nextEvent + (if st.Succeeded? then 1 else 0))
  }

  /** What an operation needs: the schema's unique columns, and no lock on a row it changes. */
  ghost predicate Allowed(s: Sys, op: Operation) {
    match op
    case ToggleBatchStatus(id) => id in s.db.batches
    case ToggleCodeStatus(id) => id in s.db.codes && CodeUnlocked(s, id)
    case CreateBatch(id, batch, texts) => AddBatchPre(s.db, id, batch, texts)
    case Import(items) =>
      forall c :: c in items ==> c !in s.issued && !items[c].used && items[c].redemptionId.None?
    case Delete(ids) => forall c :: c in ids ==> CredentialUnlocked(s, c)
  }

  ghost function Operate(s: Sys, op: Operation): (db': Db)
    requires Allowed(s, op)
  {
    match op
    case ToggleBatchStatus(id) => ToggleBatch(s.db, id)
    case ToggleCodeStatus(id) => ToggleCode(s.db, id)
    case CreateBatch(id, batch, texts) => AddBatch(s.db, id, batch, texts)
    case Import(items) => ImportCredentials(s.db, items)
    case Delete(ids) => DeleteCredentials(s.db, ids)
  }

  ghost predicate Step(s: Sys, a: Action, s': Sys) {
    match a
    case Begin(t, q, start) =>
      && t !in s.txns && WorkOf(q).Some?
      && s' == s.(txns := s.txns[t := Fresh(WorkOf(q).value, start)])
    case Run(t, st) =>
      && t in s.txns && Ready(s, t, s.txns[t], st)
      && s' == Drawn(s, st).(txns := s.txns[t := RunStatement(s, t, s.txns[t], st)])
    case CommitTxn(t) =>
      && t in s.txns && s.txns[t].pc.Commit? && s.txns[t].response.Some?
      && s' == s.(db := Overlay(s.db, s.txns[t].w),
                  txns := s.txns[t := Finish(s.txns[t], Answer(s.txns[t].response.value))])
    case Abort(t) =>
      && t in s.txns && !s.txns[t].pc.Done?
      && s' == s.(txns := s.txns[t := Finish(s.txns[t], Broken)])
    case Admin(op) =>
      && Allowed(s, op)
      && s.issued + Operate(s, op).credentials.Keys <= s'.issued
      && s' == s.(db := Operate(s, op), issued := s'.issued)
  }

  ghost predicate StepAt(states: seq<Sys>, actions: seq<Action>, i: nat)
    requires i < |actions| < |states|
  {
    Step(states[i], actions[i], states[i + 1])
  }

  /** A run: the states it passes through and the actions between them. */
  ghost predicate IsRun(states: seq<Sys>, actions: seq<Action>) {
    && |states| == |actions| + 1
    && states[0] == INITIAL
    && forall i :: 0 <= i < |actions| ==> StepAt(states, actions, i)
  }
}

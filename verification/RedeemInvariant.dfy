/** What holds in every state of the redemption protocol: for each statement, what the transaction
    at it knows about the tables, holds locked and has written; and that no two transactions hold
    the same row or the same fresh id. */
module RedeemInvariant {
  import opened Base
  import opened CodeText
  import opened RequestHash
  import opened Tables
  import opened RedeemSpec
  import opened TableInvariant
  import opened RedeemProtocol

  // ----- One transaction against the tables -----

  /** Past its key statements a transaction owns a key that no committed row has. */
  ghost predicate KeyStage(db: Db, x: Txn) {
    if KeyOf(x.work).Some? then x.keyLock && KeyOf(x.work).value !in db.keys else !x.keyLock
  }

  function KeyWrite(x: Txn): (m: map<string, KeyRow>)
  {
    if KeyOf(x.work).Some? then map[KeyOf(x.work).value := KeyRow(HashOf(x.work), None)] else map[]
  }

  function FinalKeys(x: Txn): (m: map<string, KeyRow>)
  {
    if KeyOf(x.work).Some? && x.response.Some?
    then map[KeyOf(x.work).value := KeyRow(HashOf(x.work), Some(Stored(x.response.value)))]
    else map[]
  }

  ghost predicate SeenOk(db: Db, x: Txn) {
    && x.work.Single? && x.seen.Some?
    && var id := x.seen.value.id;
    && id in db.codes && db.codes[id].text == x.work.ticket.code
    && db.codes[id].batchId in db.batches
    && SameTerms(x.seen.value.batch, db.batches[db.codes[id].batchId])
  }

  /** While the code row is locked, the copy that was read is still the committed row. */
  ghost predicate CodeHeld(db: Db, x: Txn) {
    SeenOk(db, x) && x.row == Some(db.codes[x.seen.value.id])
  }

  ghost predicate Passed(x: Txn)
    requires x.seen.Some? && x.row.Some?
  {
    CheckCodeState(x.row.value, x.seen.value.batch, x.now).None?
  }

  ghost predicate CredentialHeld(db: Db, x: Txn)
    requires x.seen.Some? && x.cred.Some?
  {
    && x.cred.value.id in db.credentials
    && db.credentials[x.cred.value.id] == x.cred.value.row
    && Eligible(x.cred.value.row, x.seen.value.batch.plan, x.start)
  }

  /** Everything a success needs is locked and checked. */
  ghost predicate Granted(db: Db, x: Txn) {
    && CodeHeld(db, x) && Passed(x)
    && (x.cred.Some? <==> x.seen.value.batch.assign)
    && (x.cred.Some? ==> CredentialHeld(db, x))
  }

  function Bumped(x: Txn): (m: map<nat, Code>)
    requires x.seen.Some? && x.row.Some?
  {
    map[x.seen.value.id := x.row.value.(useCount := x.row.value.useCount + 1)]
  }

  function Entry(x: Txn): (m: map<nat, Redemption>)
    requires x.work.Single? && x.seen.Some? && x.row.Some?
  {
    var batchId := x.row.value.batchId;
    map[x.redemptionId := SuccessEntry(x.work.ticket, x.seen.value.id, batchId, x.seen.value.batch, x.eventId)]
  }

  function Event(x: Txn): (m: map<nat, nat>)
    requires x.seen.Some?
  {
    if x.seen.value.batch.webhook then map[x.eventId := x.redemptionId] else map[]
  }

  function Marked(x: Txn): (m: map<nat, Credential>)
  {
    if x.cred.Some? then map[x.cred.value.id := MarkUsed(x.cred.value.row, x.redemptionId)] else map[]
  }

  function SuccessBody(x: Txn): (b: Body)
    requires x.work.Single? && x.seen.Some?
  {
    One(SuccessResponse(x.work.ticket, x.seen.value.batch,
                        if x.cred.Some? then Some(x.cred.value.row) else None, EnvOf(x)))
  }

  /** A failure that is to be logged, and why it is one. */
  ghost predicate Refused(db: Db, x: Txn) {
    && x.work.Single? && x.cred.None?
    && x.response.Some? && x.response.value.One?
    && var v := x.response.value.response.result;
    && v != Success && x.response.value == One(Failure(v))
    && if x.row.None? then x.seen.None? && v == InvalidCode
       else
         && CodeHeld(db, x)
         && (|| CheckCodeState(x.row.value, x.seen.value.batch, x.now) == Some(v)
             || (Passed(x) && x.seen.value.batch.assign && v == CredentialUnavailable))
  }

  function Refusal(x: Txn): (m: map<nat, Redemption>)
    requires x.work.Single? && x.response.Some? && x.response.value.One?
  {
    map[x.redemptionId :=
      FailureEntry(x.work.ticket,
                   if x.row.Some? && x.seen.Some? then Some(x.seen.value.id) else None,
                   if x.row.Some? then Some(x.row.value.batchId) else None,
                   x.response.value.response.result)]
  }

  ghost predicate RefusalWritten(db: Db, x: Txn, keys: map<string, KeyRow>) {
    Refused(db, x) && x.w == Writes(map[], map[], Refusal(x), map[], keys)
  }

  ghost predicate SuccessWritten(db: Db, x: Txn, keys: map<string, KeyRow>) {
    && Granted(db, x) && x.response == Some(SuccessBody(x))
    && x.w == Writes(Bumped(x), Marked(x), Entry(x), Event(x), keys)
  }

  ghost predicate GroupWritten(x: Txn, keys: map<string, KeyRow>) {
    x.work.Group? && x.row.None? && x.cred.None? && x.w == NO_WRITES.(keys := keys)
  }

  ghost predicate Written(db: Db, x: Txn, keys: map<string, KeyRow>) {
    SuccessWritten(db, x, keys) || RefusalWritten(db, x, keys) || GroupWritten(x, keys)
  }

  ghost predicate KeyOnly(x: Txn) { x.w == NO_WRITES.(keys := KeyWrite(x)) }

  /** A transaction that holds nothing and has written nothing. */
  ghost predicate Blank(x: Txn) {
    !x.keyLock && x.seen.None? && x.row.None? && x.cred.None? && x.w == NO_WRITES
  }

  /** How a finished transaction's outcome relates to the key rows, for good. */
  ghost predicate OutcomeOk(db: Db, x: Txn)
    requires x.pc.Done?
  {
    match x.pc.outcome
    case Answer(body) =>
      KeyOf(x.work).Some? ==>
        && KeyOf(x.work).value in db.keys
        && db.keys[KeyOf(x.work).value] == KeyRow(HashOf(x.work), Some(Stored(body)))
    case Conflict =>
      KeyOf(x.work).Some? && KeyOf(x.work).value in db.keys && db.keys[KeyOf(x.work).value].hash != HashOf(x.work)
    case StateChanged => false
    case CredentialGone => false
    case Broken => true
  }

  ghost predicate TxnOk(db: Db, x: Txn) {
    && (x.work.Single? ==> IsClean(x.work.ticket.code))
    && match x.pc
       case InsertKey => Blank(x) && KeyOf(x.work).Some?
       case LockKey => Blank(x) && KeyOf(x.work).Some? && KeyOf(x.work).value in db.keys
       case ReadCode => KeyStage(db, x) && KeyOnly(x) && x.work.Single? && x.seen.None? && x.row.None? && x.cred.None?
       case LockCode => KeyStage(db, x) && KeyOnly(x) && SeenOk(db, x) && x.row.None? && x.cred.None?
       case CheckState => KeyStage(db, x) && KeyOnly(x) && CodeHeld(db, x) && x.cred.None?
       case TakeCredential =>
         KeyStage(db, x) && KeyOnly(x) && CodeHeld(db, x) && Passed(x) && x.seen.value.batch.assign && x.cred.None?
       case Increment => KeyStage(db, x) && KeyOnly(x) && Granted(db, x)
       case LogSuccess =>
         KeyStage(db, x) && Granted(db, x) && x.w == Writes(Bumped(x), map[], map[], map[], KeyWrite(x))
       case Enqueue =>
         && KeyStage(db, x) && Granted(db, x) && x.seen.value.batch.webhook && x.response == Some(SuccessBody(x))
         && x.w == Writes(Bumped(x), map[], Entry(x), map[], KeyWrite(x))
       case MarkCredential =>
         && KeyStage(db, x) && Granted(db, x) && x.cred.Some? && x.response == Some(SuccessBody(x))
         && x.w == Writes(Bumped(x), map[], Entry(x), Event(x), KeyWrite(x))
       case LogFailure => KeyStage(db, x) && KeyOnly(x) && Refused(db, x)
       case StoreResponse =>
         KeyStage(db, x) && KeyOf(x.work).Some? && Written(db, x, KeyWrite(x))
       case Commit =>
         && KeyStage(db, x) && x.response.Some? && (x.work.Single? ==> x.response.value.One?)
         && (x.work.Group? ==> x.response.value.Many?)
         && Written(db, x, FinalKeys(x))
       case Done(_) => Blank(x) && OutcomeOk(db, x)
  }

  // ----- The whole state -----

  /** The event ids a transaction has drawn. */
  function EventIds(x: Txn): (ids: set<nat>)
  {
    x.w.outbox.Keys + if x.pc.Enqueue? then {x.eventId} else {}
  }

  /** Two transactions share no locked row and no freshly drawn id. */
  ghost predicate Apart(x: Txn, y: Txn) {
    && (x.keyLock && y.keyLock && KeyOf(x.work).Some? ==> KeyOf(x.work) != KeyOf(y.work))
    && (x.row.Some? && y.row.Some? && x.seen.Some? && y.seen.Some? ==> x.seen.value.id != y.seen.value.id)
    && (x.cred.Some? && y.cred.Some? ==> x.cred.value.id != y.cred.value.id)
    && x.w.redemptions.Keys !! y.w.redemptions.Keys
    && EventIds(x) !! EventIds(y)
  }

  /** Drawn ids lie below the sequences and are not yet in the tables. */
  ghost predicate IdsOk(s: Sys, x: Txn) {
    && (forall r :: r in x.w.redemptions ==> r < s.nextRedemption && r !in s.db.redemptions)
    && (forall e :: e in EventIds(x) ==> e < s.nextEvent && e !in s.db.outbox)
  }

  ghost predicate SequencesOk(s: Sys) {
    && (forall r :: r in s.db.redemptions ==> r < s.nextRedemption)
    && (forall e :: e in s.db.outbox ==> e < s.nextEvent)
    && s.db.credentials.Keys <= s.issued
  }

  ghost predicate Inv(s: Sys) {
    && DbOk(s.db) && SequencesOk(s)
    && (forall t :: t in s.txns ==> TxnOk(s.db, s.txns[t]) && IdsOk(s, s.txns[t]))
    && (forall t, u :: t in s.txns && u in s.txns && t != u ==> Apart(s.txns[t], s.txns[u]))
  }
}

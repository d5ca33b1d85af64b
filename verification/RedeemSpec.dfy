/** What one redemption does to the tables when it runs alone
    (internal/redeem/service.go, Redeem and the functions it calls). */
module RedeemSpec {
  import opened Base
  import opened CodeText
  import opened RequestHash
  import opened Tables

  const MAX_CODE_LENGTH := 128
  const MAX_USER_LENGTH := 256
  const MAX_KEY_LENGTH := 128

  /** A request that has passed the input checks: trimmed user, normalised code. */
  datatype Ticket = Ticket(user: string, code: string, key: Option<string>)

  /** What a transaction reads from outside the tables: NOW() at its start, the clock at the state
      check, the credential rows that SKIP LOCKED passes over, and the ids it draws. */
  datatype Env = Env(start: Time, now: Time, skipped: set<nat>, redemptionId: nat, eventId: nat, at: Time)

  function Utf8Length(s: string): (n: nat)
  {
    if s == "" then 0
    else
      (if s[0] < '\U{80}' then 1 else if s[0] < '\U{800}' then 2 else if s[0] < '\U{10000}' then 3 else 4)
      + Utf8Length(s[1..])
  }

  predicate ValidKey(key: string) {
    key == "" || (Utf8Length(key) <= MAX_KEY_LENGTH && key == TrimSpace(key))
  }

  /** The input checks; None answers invalid_input before any transaction is begun. */
  function Admit(user: string, code: string, key: string): (t: Option<Ticket>)
    ensures t.Some? ==> t.value.user != "" && t.value.code != "" && IsClean(t.value.code)
  {
    var user' := TrimSpace(user);
    var code' := Normalize(code);
    NormalizeIsClean(code);
    if user' == "" || code' == "" || |user'| > MAX_USER_LENGTH || |code'| > MAX_CODE_LENGTH || !ValidKey(key)
    then None
    else Some(Ticket(user', code', if key == "" then None else Some(key)))
  }

  /** Exactly which requests are let in, and what becomes of them. */
  lemma AdmittedAre(user: string, code: string, key: string)
    ensures Admit(user, code, key)
         == if && 1 <= |TrimSpace(user)| <= 256 && 1 <= |Normalize(code)| <= 128
               && (key == "" || (Utf8Length(key) <= 128 && key == TrimSpace(key)))
            then Some(Ticket(TrimSpace(user), Normalize(code), if key == "" then None else Some(key)))
            else None
  {
  }

  /** One to four bytes a character. */
  lemma {:induction false} Utf8Widths(s: string, c: char)
    ensures Utf8Length(s + [c])
         == Utf8Length(s)
            + if c as int < 0x80 then 1 else if c as int < 0x800 then 2 else if c as int < 0x10000 then 3 else 4
  {
    if s == "" {
      assert s + [c] == [c] && [c][1..] == "";
    } else {
      Utf8Widths(s[1..], c);
      assert (s + [c])[1..] == s[1..] + [c] && (s + [c])[0] == s[0];
    }
  }

  function TicketHash(t: Ticket): (h: string)
  {
    SingleBytes(t.user, t.code)
  }

  predicate IsExpired(batch: Batch, now: Time) { batch.expiresAt.Some? && batch.expiresAt.value < now }

  /** checkCodeState: the first reason, in this order, that stands against the code. */
  function CheckCodeState(row: Code, batch: Batch, now: Time): (v: Option<Verdict>)
    ensures var past := batch.expiresAt.Some? && batch.expiresAt.value < now;
            && (v.None? <==> row.enabled && batch.active && !past && row.useCount < batch.maxUses)
            && (v == Some(CodeDisabled) <==> !row.enabled)
            && (v == Some(BatchDisabled) <==> row.enabled && !batch.active)
            && (v == Some(Expired) <==> row.enabled && batch.active && past)
            && (v == Some(CodeUsedUp) <==> row.enabled && batch.active && !past && row.useCount >= batch.maxUses)
  {
    if !row.enabled then Some(CodeDisabled)
    else if !batch.active then Some(BatchDisabled)
    else if IsExpired(batch, now) then Some(Expired)
    else if row.useCount >= batch.maxUses then Some(CodeUsedUp)
    else None
  }

  /** The WHERE clause of GetUnusedCredential. */
  predicate Eligible(c: Credential, plan: string, start: Time) {
    && !c.used
    && (c.expires.None? || c.expires.value > start)
    && (plan == "" || c.plan == plan)
  }

  ghost predicate IsFree(db: Db, plan: string, start: Time, skipped: set<nat>, c: nat) {
    c in db.credentials && c !in skipped && Eligible(db.credentials[c], plan, start)
  }

  /** GetUnusedCredential: the free row with the smallest id. */
  function FreeCredential(db: Db, plan: string, start: Time, skipped: set<nat>): (id: Option<nat>)
    ensures id.Some? ==>
              && IsFree(db, plan, start, skipped, id.value)
              && forall c :: IsFree(db, plan, start, skipped, c) ==> id.value <= c
    ensures id.None? ==> forall c :: !IsFree(db, plan, start, skipped, c)
    ensures id.Some? ==>
              var row := db.credentials[id.value];
              && id.value !in skipped && !row.used && (row.expires.None? || row.expires.value > start)
              && (plan == "" || row.plan == plan)
  {
    var free := set c | c in db.credentials && c !in skipped && Eligible(db.credentials[c], plan, start);
    assert forall c :: IsFree(db, plan, start, skipped, c) <==> c in free;
    Least(free)
  }

  ghost predicate HasText(db: Db, text: string, c: nat) {
    c in db.codes && db.codes[c].text == text && db.codes[c].batchId in db.batches
  }

  /** GetCodeByCode joins the code with its batch; code texts are unique. */
  function LookupCode(db: Db, text: string): (id: Option<nat>)
    ensures id.Some? ==> HasText(db, text, id.value) && forall c :: HasText(db, text, c) ==> id.value <= c
    ensures id.None? ==> forall c :: !HasText(db, text, c)
    ensures id.Some? ==> db.codes[id.value].text == text && db.codes[id.value].batchId in db.batches
    ensures id.None? ==>
              forall c :: c in db.codes && db.codes[c].text == text ==> db.codes[c].batchId !in db.batches
  {
    var found := set c | c in db.codes && db.codes[c].text == text && db.codes[c].batchId in db.batches;
    assert forall c :: HasText(db, text, c) <==> c in found;
    assert forall c :: c in db.codes && db.codes[c].text == text && db.codes[c].batchId in db.batches ==> c in found;
    Least(found)
  }

  function Failure(v: Verdict): (r: Response)
  {
    Response(false, v, "", "", "", "", None, None, None, false)
  }

  function SuccessResponse(t: Ticket, batch: Batch, cred: Option<Credential>, env: Env): (r: Response)
  {
    Response(true, Success, batch.name, DisplayCode(t.code, batch.prefix), t.user, batch.payload,
             if cred.Some? then Some(cred.value.data) else None, Some(env.at),
             if batch.webhook then Some(env.eventId) else None, batch.webhook)
  }

  function FailureEntry(t: Ticket, codeId: Option<nat>, batchId: Option<nat>, v: Verdict): (r: Redemption)
  {
    Redemption(codeId, batchId, t.code, t.user, "{}", v, t.key, None)
  }

  function SuccessEntry(t: Ticket, id: nat, batchId: nat, batch: Batch, eventId: nat): (r: Redemption)
  {
    Redemption(Some(id), Some(batchId), t.code, t.user, batch.payload, Success, t.key,
               if batch.webhook then Some(eventId) else None)
  }

  /** SetIdempotencyResponse on the key's row, which the transaction inserted if it was not there. */
  function StoreKey(keys: map<string, KeyRow>, key: Option<string>, hash: string, body: Body): (r: map<string, KeyRow>)
  {
    if key.None? then keys
    else keys[key.value := KeyRow(if key.value in keys then keys[key.value].hash else hash, Some(Stored(body)))]
  }

  /** recordFailure: one log row and the stored answer. */
  function Fail(db: Db, t: Ticket, codeId: Option<nat>, batchId: Option<nat>, v: Verdict, redemptionId: nat): (db': Db)
  {
    db.(redemptions := db.redemptions[redemptionId := FailureEntry(t, codeId, batchId, v)],
        keys := StoreKey(db.keys, t.key, TicketHash(t), One(Failure(v))))
  }

  function MarkUsed(c: Credential, redemptionId: nat): (c': Credential)
  {
    c.(used := true, redemptionId := Some(redemptionId))
  }

  /** The writes of a successful redemption of code `id`, whose batch was read as `batch`. */
  function Succeed(db: Db, t: Ticket, id: nat, batch: Batch, cred: Option<nat>, env: Env): (db': Db)
    requires id in db.codes
    requires cred.Some? ==> cred.value in db.credentials
  {
    var row := db.codes[id];
    var data := if cred.Some? then Some(db.credentials[cred.value]) else None;
    Db(db.batches,
       db.codes[id := row.(useCount := row.useCount + 1)],
       if cred.Some? then db.credentials[cred.value := MarkUsed(db.credentials[cred.value], env.redemptionId)]
       else db.credentials,
       db.redemptions[env.redemptionId := SuccessEntry(t, id, row.batchId, batch, env.eventId)],
       if batch.webhook then db.outbox[env.eventId := env.redemptionId] else db.outbox,
       StoreKey(db.keys, t.key, TicketHash(t), One(SuccessResponse(t, batch, data, env))))
  }

  /** The part of Redeem that follows the lock on code row `id`. */
  function RedeemRow(db: Db, t: Ticket, id: nat, batch: Batch, env: Env): (r: (Db, Response))
    requires id in db.codes
  {
    var row := db.codes[id];
    var bad := CheckCodeState(row, batch, env.now);
    if bad.Some? then
      (Fail(db, t, Some(id), Some(row.batchId), bad.value, env.redemptionId), Failure(bad.value))
    else if !batch.assign then
      (Succeed(db, t, id, batch, None, env), SuccessResponse(t, batch, None, env))
    else
      var cred := FreeCredential(db, batch.plan, env.start, env.skipped);
      if cred.None? then
        (Fail(db, t, Some(id), Some(row.batchId), CredentialUnavailable, env.redemptionId),
         Failure(CredentialUnavailable))
      else
        (Succeed(db, t, id, batch, cred, env), SuccessResponse(t, batch, Some(db.credentials[cred.value]), env))
  }

  function RedeemFresh(db: Db, t: Ticket, env: Env): (r: (Db, Response))
  {
    var id := LookupCode(db, t.code);
    if id.None? then
      (Fail(db, t, None, None, InvalidCode, env.redemptionId), Failure(InvalidCode))
    else
      RedeemRow(db, t, id.value, db.batches[db.codes[id.value].batchId], env)
  }

  datatype Answer = Answered(body: Body) | KeyConflict

  /** Redeem after its input checks. */
  function AtomicRedeem(db: Db, t: Ticket, env: Env): (r: (Db, Answer))
  {
    if t.key.Some? && t.key.value in db.keys then
      var row := db.keys[t.key.value];
      if row.hash != TicketHash(t) then (db, KeyConflict)
      else if row.response.Some? then (db, Answered(row.response.value))
      else var (db', resp) := RedeemFresh(db, t, env); (db', Answered(One(resp)))
    else
      var (db', resp) := RedeemFresh(db, t, env); (db', Answered(One(resp)))
  }

  /** What a redemption of code row `id` writes and answers, column by column. */
  lemma RowWrites(db: Db, t: Ticket, id: nat, batch: Batch, env: Env)
    requires id in db.codes
    ensures var (db', a) := RedeemRow(db, t, id, batch, env);
            var row := db.codes[id];
            && db'.batches == db.batches
            && db'.codes == (if a.ok then db.codes[id := row.(useCount := row.useCount + 1)] else db.codes)
            && db'.outbox == (if a.ok && batch.webhook then db.outbox[env.eventId := env.redemptionId] else db.outbox)
            && db'.redemptions == db.redemptions[env.redemptionId :=
                 Redemption(Some(id), Some(row.batchId), t.code, t.user, if a.ok then batch.payload else "{}", a.result,
                            t.key, if a.ok && batch.webhook then Some(env.eventId) else None)]
            && (a.ok <==> a.result == Success)
            && (!a.ok || !batch.assign ==> db'.credentials == db.credentials && a.credential.None?)
            && (a.ok && batch.assign ==> a.credential.Some?)
  {
  }

  /** What a granted answer says. */
  lemma GrantSays(db: Db, t: Ticket, id: nat, batch: Batch, env: Env)
    requires id in db.codes && RedeemRow(db, t, id, batch, env).1.ok
    ensures var a := RedeemRow(db, t, id, batch, env).1;
            && a.batch == batch.name && a.code == DisplayCode(t.code, batch.prefix) && a.userId == t.user
            && a.payload == batch.payload && a.redeemedAt == Some(env.at)
            && a.eventId == (if batch.webhook then Some(env.eventId) else None) && a.webhookPending == batch.webhook
  {
  }

  /** The verdict on a code row, by its columns. */
  lemma VerdictIs(db: Db, t: Ticket, id: nat, batch: Batch, env: Env)
    requires id in db.codes
    ensures var row, v := db.codes[id], RedeemRow(db, t, id, batch, env).1.result;
            var past := batch.expiresAt.Some? && batch.expiresAt.value < env.now;
            if !row.enabled then v == CodeDisabled
            else if !batch.active then v == BatchDisabled
            else if past then v == Expired
            else if row.useCount >= batch.maxUses then v == CodeUsedUp
            else if !batch.assign then v == Success
            else v == Success || v == CredentialUnavailable
  {
  }

  lemma FreshKeys(db: Db, t: Ticket, env: Env)
    ensures var (db', a) := RedeemFresh(db, t, env); db'.keys == StoreKey(db.keys, t.key, TicketHash(t), One(a))
  {
  }

  /** Which key rows a redemption writes, and that it says its answer again. */
  lemma KeyWrites(db: Db, t: Ticket, env: Env, k: string)
    ensures var (db', a) := RedeemFresh(db, t, env);
            if t.key != Some(k) then (k in db'.keys <==> k in db.keys) && (k in db.keys ==> db'.keys[k] == db.keys[k])
            else
              && k in db'.keys && db'.keys[k].response.Some? && db'.keys[k].response.value.One?
              && SaysAgain(a, db'.keys[k].response.value.response)
              && db'.keys[k].hash == if k in db.keys then db.keys[k].hash else SingleBytes(t.user, t.code)
  {
    FreshKeys(db, t, env);
    StoredSaysAgain(One(RedeemFresh(db, t, env).1));
  }

  /** A request under a key that was answered gets the same answer again if it is the same request,
      and a conflict if it is not; either way nothing changes. */
  lemma RedeemReplays(db: Db, t: Ticket, env: Env, u: Ticket, again: Env)
    requires t.key.Some? && u.key == t.key && t.key.value !in db.keys && IsClean(t.code) && IsClean(u.code)
    ensures var (db', a) := AtomicRedeem(db, t, env);
            && a.Answered? && a.body.One?
            && AtomicRedeem(db', u, again).0 == db'
            && var b := AtomicRedeem(db', u, again).1;
            if u.user == t.user && u.code == t.code
            then b.Answered? && b.body.One? && SaysAgain(a.body.response, b.body.response)
            else b.KeyConflict?
  {
    KeyWrites(db, t, env, t.key.value);
    SingleBytesDetermineRequest(t.user, t.code, u.user, u.code);
    NormalizeFixesClean(t.code);
    NormalizeFixesClean(u.code);
  }

  // ----- Administrators' statements -----

  function ToggleBatch(db: Db, id: nat): (db': Db)
    requires id in db.batches
  {
    db.(batches := db.batches[id := db.batches[id].(active := !db.batches[id].active)])
  }

  function ToggleCode(db: Db, id: nat): (db': Db)
    requires id in db.codes
  {
    db.(codes := db.codes[id := db.codes[id].(enabled := !db.codes[id].enabled)])
  }

  /** createBatch: one batch and its new codes, in one transaction. */
  function AddBatch(db: Db, id: nat, batch: Batch, texts: map<nat, string>): (db': Db)
  {
    db.(batches := db.batches[id := batch],
        codes := db.codes + map c | c in texts :: Code(id, texts[c], true, 0))
  }

  function ImportCredentials(db: Db, items: map<nat, Credential>): (db': Db)
  {
    db.(credentials := db.credentials + items)
  }

  function DeleteCredentials(db: Db, ids: set<nat>): (db': Db)
  {
    db.(credentials := db.credentials - ids)
  }

  /** Toggling changes one status and toggling again changes it back. */
  lemma TogglesAre(db: Db, id: nat)
    ensures id in db.batches ==>
              && ToggleBatch(ToggleBatch(db, id), id) == db
              && ToggleBatch(db, id).batches[id].active == !db.batches[id].active
    ensures id in db.codes ==>
              && ToggleCode(ToggleCode(db, id), id) == db
              && ToggleCode(db, id).codes[id].enabled == !db.codes[id].enabled
  {
    if id in db.batches {
      assert ToggleBatch(ToggleBatch(db, id), id).batches == db.batches;
    }
    if id in db.codes {
      assert ToggleCode(ToggleCode(db, id), id).codes == db.codes;
    }
  }

  /** New codes belong to the new batch, enabled and unused; every other row stays. */
  lemma AddedBatchIs(db: Db, id: nat, batch: Batch, texts: map<nat, string>, c: nat)
    ensures var db' := AddBatch(db, id, batch, texts);
            && db' == db.(batches := db'.batches, codes := db'.codes)
            && db'.batches == db.batches[id := batch]
            && db'.codes.Keys == db.codes.Keys + texts.Keys
            && (c in texts ==> db'.codes[c] == Code(id, texts[c], true, 0))
            && (c in db.codes && c !in texts ==> db'.codes[c] == db.codes[c])
  {
  }

  /** Stock gains the imported rows and loses the deleted ones. */
  lemma StockIs(db: Db, items: map<nat, Credential>, ids: set<nat>, c: nat)
    ensures var db' := ImportCredentials(db, items);
            && db' == db.(credentials := db'.credentials)
            && (c in db'.credentials <==> c in db.credentials || c in items)
            && (c in db'.credentials ==> db'.credentials[c] == if c in items then items[c] else db.credentials[c])
    ensures var db' := DeleteCredentials(db, ids);
            && db' == db.(credentials := db'.credentials)
            && (c in db'.credentials <==> c in db.credentials && c !in ids)
            && (c in db'.credentials ==> db'.credentials[c] == db.credentials[c])
  {
  }
}

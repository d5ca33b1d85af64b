/** What every committed state of the tables satisfies, and that each committed change keeps it. */
module TableInvariant {
  import opened Base
  import opened CodeText
  import opened RequestHash
  import opened Tables
  import opened RedeemSpec

  /** The committed successful redemptions of a code. */
  ghost function Successes(redemptions: map<nat, Redemption>, code: nat): (s: set<nat>)
  {
    set r | r in redemptions && redemptions[r].result == Success && redemptions[r].codeId == Some(code)
  }

  /** A code's use count is its number of successes, within its batch's limit. */
  ghost predicate CountOk(db: Db, c: nat)
    requires c in db.codes
  {
    && db.codes[c].batchId in db.batches
    && db.codes[c].useCount == |Successes(db.redemptions, c)|
    && db.codes[c].useCount <= db.batches[db.codes[c].batchId].maxUses
  }

  ghost predicate CodesOk(db: Db) {
    && (forall c :: c in db.codes ==> CountOk(db, c))
    && (forall c, d :: c in db.codes && d in db.codes && db.codes[c].text == db.codes[d].text ==> c == d)
  }

  /** A log row: only a success names an event, and then exactly when its batch has a webhook. */
  ghost predicate LogRowOk(db: Db, r: nat)
    requires r in db.redemptions
  {
    var row := db.redemptions[r];
    && IsClean(row.codeText)
    && (row.result != Success ==> row.eventId.None?)
    && (row.result == Success ==>
          && row.codeId.Some? && row.codeId.value in db.codes
          && db.codes[row.codeId.value].text == row.codeText
          && row.batchId == Some(db.codes[row.codeId.value].batchId)
          && row.batchId.value in db.batches
          && (row.eventId.Some? <==> db.batches[row.batchId.value].webhook))
  }

  ghost predicate LogOk(db: Db) {
    forall r :: r in db.redemptions ==> LogRowOk(db, r)
  }

  /** Events and the redemptions that name them correspond one to one. */
  ghost predicate EventsOk(db: Db) {
    && (forall r :: r in db.redemptions && db.redemptions[r].eventId.Some? ==>
          db.redemptions[r].eventId.value in db.outbox && db.outbox[db.redemptions[r].eventId.value] == r)
    && (forall e :: e in db.outbox ==>
          db.outbox[e] in db.redemptions && db.redemptions[db.outbox[e]].eventId == Some(e))
  }

  /** A used credential belongs to a success of a batch that assigns credentials of its plan. */
  ghost predicate CredentialOk(db: Db, c: nat)
    requires c in db.credentials
  {
    var row := db.credentials[c];
    && (!row.used ==> row.redemptionId.None?)
    && (row.used ==>
          && row.redemptionId.Some? && row.redemptionId.value in db.redemptions
          && Assigns(db, row.redemptionId.value, row.plan))
  }

  ghost predicate Assigns(db: Db, r: nat, plan: string)
    requires r in db.redemptions
  {
    var row := db.redemptions[r];
    && row.result == Success
    && row.batchId.Some? && row.batchId.value in db.batches
    && db.batches[row.batchId.value].assign
    && (db.batches[row.batchId.value].plan == "" || db.batches[row.batchId.value].plan == plan)
  }

  ghost predicate CredentialsOk(db: Db) {
    && (forall c :: c in db.credentials ==> CredentialOk(db, c))
    && (forall c, d ::
          (&& c in db.credentials && d in db.credentials
           && db.credentials[c].used && db.credentials[d].used
           && db.credentials[c].redemptionId == db.credentials[d].redemptionId)
          ==> c == d)
  }

  /** A committed key row holds an answer; at most one log row carries the key, and the row's hash
      and answer are that log row's. */
  ghost predicate KeyedRowOk(db: Db, r: nat)
    requires r in db.redemptions
  {
    var row := db.redemptions[r];
    row.key.Some? ==>
      && row.key.value in db.keys
      && db.keys[row.key.value].hash == SingleBytes(row.userId, row.codeText)
      && db.keys[row.key.value].response.Some?
      && db.keys[row.key.value].response.value.One?
      && db.keys[row.key.value].response.value.response.result == row.result
  }

  ghost predicate KeysOk(db: Db) {
    && (forall k :: k in db.keys ==>
          db.keys[k].response.Some? && Stored(db.keys[k].response.value) == db.keys[k].response.value)
    && (forall r :: r in db.redemptions ==> KeyedRowOk(db, r))
    && (forall r, q ::
          (&& r in db.redemptions && q in db.redemptions
           && db.redemptions[r].key.Some? && db.redemptions[r].key == db.redemptions[q].key)
          ==> r == q)
  }

  ghost predicate DbOk(db: Db) {
    CodesOk(db) && LogOk(db) && EventsOk(db) && CredentialsOk(db) && KeysOk(db)
  }

  lemma EmptyIsOk()
    ensures DbOk(EMPTY)
  {
  }

  /** Two readings of a batch that may differ only in its status, the one column that changes. */
  predicate SameTerms(a: Batch, b: Batch) { a == b.(active := a.active) }

  // ----- A failed redemption -----

  ghost predicate FailPre(db: Db, t: Ticket, v: Verdict, r: nat) {
    && IsClean(t.code) && v != Success
    && r !in db.redemptions
    && (t.key.Some? ==> t.key.value !in db.keys)
  }

  lemma FailureAddsNoSuccess(reds: map<nat, Redemption>, r: nat, row: Redemption, c: nat)
    requires r !in reds && row.result != Success
    ensures Successes(reds[r := row], c) == Successes(reds, c)
  {
  }

  lemma FailKeepsCodes(db: Db, t: Ticket, codeId: Option<nat>, batchId: Option<nat>, v: Verdict, r: nat)
    requires CodesOk(db) && FailPre(db, t, v, r)
    ensures CodesOk(Fail(db, t, codeId, batchId, v, r))
  {
    var db' := Fail(db, t, codeId, batchId, v, r);
    forall c | c in db'.codes ensures CountOk(db', c) {
      assert CountOk(db, c);
      FailureAddsNoSuccess(db.redemptions, r, FailureEntry(t, codeId, batchId, v), c);
    }
  }

  lemma FailKeepsLog(db: Db, t: Ticket, codeId: Option<nat>, batchId: Option<nat>, v: Verdict, r: nat)
    requires LogOk(db) && EventsOk(db) && FailPre(db, t, v, r)
    ensures LogOk(Fail(db, t, codeId, batchId, v, r)) && EventsOk(Fail(db, t, codeId, batchId, v, r))
  {
    var db' := Fail(db, t, codeId, batchId, v, r);
    forall q | q in db'.redemptions ensures LogRowOk(db', q) {
      if q != r {
        assert LogRowOk(db, q);
      }
    }
  }

  lemma FailKeepsCredentials(db: Db, t: Ticket, codeId: Option<nat>, batchId: Option<nat>, v: Verdict, r: nat)
    requires CredentialsOk(db) && FailPre(db, t, v, r)
    ensures CredentialsOk(Fail(db, t, codeId, batchId, v, r))
  {
    var db' := Fail(db, t, codeId, batchId, v, r);
    forall c | c in db'.credentials ensures CredentialOk(db', c) {
      assert CredentialOk(db, c);
    }
  }

  /** Logging a row under a key that has no row yet, together with that key's row. */
  lemma KeyedLogKeepsKeys(db: Db, db': Db, r: nat, row: Redemption, body: Body)
    requires KeysOk(db) && r !in db.redemptions && IsClean(row.codeText)
    requires row.key.Some? ==> row.key.value !in db.keys
    requires body.One? && body.response.result == row.result
    requires db'.redemptions == db.redemptions[r := row]
    requires db'.keys == StoreKey(db.keys, row.key, SingleBytes(row.userId, row.codeText), body)
    ensures KeysOk(db')
  {
    StoredIsIdempotent(body);
    forall q | q in db'.redemptions ensures KeyedRowOk(db', q) {
      if q != r {
        assert KeyedRowOk(db, q);
      }
    }
    assert forall q :: q in db.redemptions ==> KeyedRowOk(db, q);
  }

  lemma FailKeepsDb(db: Db, t: Ticket, codeId: Option<nat>, batchId: Option<nat>, v: Verdict, r: nat)
    requires DbOk(db) && FailPre(db, t, v, r)
    ensures DbOk(Fail(db, t, codeId, batchId, v, r))
  {
    FailKeepsCodes(db, t, codeId, batchId, v, r);
    FailKeepsLog(db, t, codeId, batchId, v, r);
    FailKeepsCredentials(db, t, codeId, batchId, v, r);
    NormalizeFixesClean(t.code);
    KeyedLogKeepsKeys(db, Fail(db, t, codeId, batchId, v, r), r, FailureEntry(t, codeId, batchId, v), One(Failure(v)));
  }

  // ----- A successful redemption -----

  ghost predicate SucceedPre(db: Db, t: Ticket, id: nat, batch: Batch, cred: Option<nat>, env: Env) {
    && IsClean(t.code)
    && id in db.codes && db.codes[id].text == t.code
    && db.codes[id].batchId in db.batches && SameTerms(batch, db.batches[db.codes[id].batchId])
    && CheckCodeState(db.codes[id], batch, env.now).None?
    && (cred.Some? <==> batch.assign)
    && (cred.Some? ==> cred.value in db.credentials && Eligible(db.credentials[cred.value], batch.plan, env.start))
    && env.redemptionId !in db.redemptions
    && (batch.webhook ==> env.eventId !in db.outbox)
    && (t.key.Some? ==> t.key.value !in db.keys)
  }

  lemma SuccessCounts(reds: map<nat, Redemption>, r: nat, row: Redemption, c: nat)
    requires r !in reds && row.result == Success
    ensures |Successes(reds[r := row], c)| == |Successes(reds, c)| + (if row.codeId == Some(c) then 1 else 0)
  {
    if row.codeId == Some(c) {
      assert Successes(reds[r := row], c) == Successes(reds, c) + {r};
    } else {
      assert Successes(reds[r := row], c) == Successes(reds, c);
    }
  }

  lemma SucceedKeepsCodes(db: Db, t: Ticket, id: nat, batch: Batch, cred: Option<nat>, env: Env)
    requires CodesOk(db) && SucceedPre(db, t, id, batch, cred, env)
    ensures CodesOk(Succeed(db, t, id, batch, cred, env))
  {
    var db' := Succeed(db, t, id, batch, cred, env);
    var row := SuccessEntry(t, id, db.codes[id].batchId, batch, env.eventId);
    forall c | c in db'.codes ensures CountOk(db', c) {
      assert CountOk(db, c);
      SuccessCounts(db.redemptions, env.redemptionId, row, c);
    }
  }

  lemma SucceedKeepsLog(db: Db, t: Ticket, id: nat, batch: Batch, cred: Option<nat>, env: Env)
    requires LogOk(db) && SucceedPre(db, t, id, batch, cred, env)
    ensures LogOk(Succeed(db, t, id, batch, cred, env))
  {
    var db' := Succeed(db, t, id, batch, cred, env);
    forall q | q in db'.redemptions ensures LogRowOk(db', q) {
      if q != env.redemptionId {
        assert LogRowOk(db, q);
      }
    }
  }

  lemma SucceedKeepsEvents(db: Db, t: Ticket, id: nat, batch: Batch, cred: Option<nat>, env: Env)
    requires EventsOk(db) && SucceedPre(db, t, id, batch, cred, env)
    ensures EventsOk(Succeed(db, t, id, batch, cred, env))
  {
  }

  lemma SucceedKeepsCredentials(db: Db, t: Ticket, id: nat, batch: Batch, cred: Option<nat>, env: Env)
    requires CredentialsOk(db) && SucceedPre(db, t, id, batch, cred, env)
    ensures CredentialsOk(Succeed(db, t, id, batch, cred, env))
  {
    var db' := Succeed(db, t, id, batch, cred, env);
    forall c | c in db'.credentials ensures CredentialOk(db', c) {
      assert CredentialOk(db, c);
    }
    forall c, d | c in db'.credentials && d in db'.credentials && db'.credentials[c].used && db'.credentials[d].used
                  && db'.credentials[c].redemptionId == db'.credentials[d].redemptionId
      ensures c == d
    {
      assert CredentialOk(db, c) && CredentialOk(db, d);
    }
  }

  lemma SucceedKeepsDb(db: Db, t: Ticket, id: nat, batch: Batch, cred: Option<nat>, env: Env)
    requires DbOk(db) && SucceedPre(db, t, id, batch, cred, env)
    ensures DbOk(Succeed(db, t, id, batch, cred, env))
  {
    SucceedKeepsCodes(db, t, id, batch, cred, env);
    SucceedKeepsLog(db, t, id, batch, cred, env);
    SucceedKeepsEvents(db, t, id, batch, cred, env);
    SucceedKeepsCredentials(db, t, id, batch, cred, env);
    NormalizeFixesClean(t.code);
    var data := if cred.Some? then Some(db.credentials[cred.value]) else None;
    KeyedLogKeepsKeys(db, Succeed(db, t, id, batch, cred, env), env.redemptionId,
                      SuccessEntry(t, id, db.codes[id].batchId, batch, env.eventId),
                      One(SuccessResponse(t, batch, data, env)));
  }

  // ----- A stored batch answer, and the administrators' statements -----

  lemma StoreGroupKeepsDb(db: Db, key: string, hash: string, body: Body)
    requires DbOk(db) && key !in db.keys
    ensures DbOk(db.(keys := StoreKey(db.keys, Some(key), hash, body)))
  {
    StoredIsIdempotent(body);
    var db' := db.(keys := StoreKey(db.keys, Some(key), hash, body));
    assert forall c :: c in db.codes ==> CountOk(db, c) && CountOk(db', c);
    assert forall r :: r in db.redemptions ==> LogRowOk(db, r) && LogRowOk(db', r);
    assert forall c :: c in db.credentials ==> CredentialOk(db, c) && CredentialOk(db', c);
    forall r | r in db'.redemptions ensures KeyedRowOk(db', r) {
      assert KeyedRowOk(db, r);
    }
  }

  lemma SameRowsKeepKeys(db: Db, db': Db)
    requires KeysOk(db) && db'.redemptions == db.redemptions && db'.keys == db.keys
    ensures KeysOk(db')
  {
    forall r | r in db'.redemptions ensures KeyedRowOk(db', r) {
      assert KeyedRowOk(db, r);
    }
  }

  /** Changes of the catalogue: every old code keeps its count, text and batch, and every old batch its terms. */
  lemma CatalogueKeepsDb(db: Db, db': Db)
    requires DbOk(db)
    requires db'.redemptions == db.redemptions && db'.keys == db.keys && db'.outbox == db.outbox
    requires db'.credentials == db.credentials
    requires forall b :: b in db.batches ==> b in db'.batches && SameTerms(db'.batches[b], db.batches[b])
    requires forall c :: c in db.codes ==>
               c in db'.codes && db'.codes[c] == db.codes[c].(enabled := db'.codes[c].enabled)
    requires forall c :: c in db'.codes && c !in db.codes ==> CountOk(db', c)
    requires forall c, d :: c in db'.codes && d in db'.codes && db'.codes[c].text == db'.codes[d].text ==> c == d
    ensures DbOk(db')
  {
    forall c | c in db'.codes ensures CountOk(db', c) {
      if c in db.codes {
        assert CountOk(db, c);
      }
    }
    forall r | r in db'.redemptions ensures LogRowOk(db', r) {
      assert LogRowOk(db, r);
    }
    forall c | c in db'.credentials ensures CredentialOk(db', c) {
      assert CredentialOk(db, c);
    }
    SameRowsKeepKeys(db, db');
  }

  lemma ToggleBatchKeepsDb(db: Db, id: nat)
    requires DbOk(db) && id in db.batches
    ensures DbOk(ToggleBatch(db, id))
  {
    CatalogueKeepsDb(db, ToggleBatch(db, id));
  }

  lemma ToggleCodeKeepsDb(db: Db, id: nat)
    requires DbOk(db) && id in db.codes
    ensures DbOk(ToggleCode(db, id))
  {
    CatalogueKeepsDb(db, ToggleCode(db, id));
  }

  /** What the schema demands of a new batch: fresh ids and texts, a positive limit. */
  ghost predicate AddBatchPre(db: Db, id: nat, batch: Batch, texts: map<nat, string>) {
    && id !in db.batches && batch.maxUses >= 1
    && (forall c :: c in texts ==> c !in db.codes)
    && (forall c, d :: c in texts && d in texts && texts[c] == texts[d] ==> c == d)
    && (forall c, d :: c in texts && d in db.codes ==> texts[c] != db.codes[d].text)
  }

  lemma NewCodeHasNoSuccess(db: Db, c: nat)
    requires LogOk(db) && c !in db.codes
    ensures Successes(db.redemptions, c) == {}
  {
    forall r | r in db.redemptions ensures r !in Successes(db.redemptions, c) {
      assert LogRowOk(db, r);
    }
  }

  lemma NewTextsAreUnique(db: Db, id: nat, batch: Batch, texts: map<nat, string>)
    requires CodesOk(db) && AddBatchPre(db, id, batch, texts)
    ensures var codes := AddBatch(db, id, batch, texts).codes;
            forall c, d :: c in codes && d in codes && codes[c].text == codes[d].text ==> c == d
  {
  }

  lemma AddBatchKeepsDb(db: Db, id: nat, batch: Batch, texts: map<nat, string>)
    requires DbOk(db) && AddBatchPre(db, id, batch, texts)
    ensures DbOk(AddBatch(db, id, batch, texts))
  {
    var db' := AddBatch(db, id, batch, texts);
    forall c | c in db'.codes && c !in db.codes ensures CountOk(db', c) {
      NewCodeHasNoSuccess(db, c);
    }
    NewTextsAreUnique(db, id, batch, texts);
    assert forall c :: c in db.codes ==> CountOk(db, c) && c !in texts;
    CatalogueKeepsDb(db, db');
  }

  lemma StockKeepsDb(db: Db, credentials: map<nat, Credential>)
    requires DbOk(db)
    requires forall c :: c in credentials ==>
               || (c in db.credentials && credentials[c] == db.credentials[c])
               || (!credentials[c].used && credentials[c].redemptionId.None?)
    ensures DbOk(db.(credentials := credentials))
  {
    var db' := db.(credentials := credentials);
    forall c | c in db'.credentials ensures CredentialOk(db', c) {
      assert c in db.credentials ==> CredentialOk(db, c);
    }
    assert forall c :: c in db.codes ==> CountOk(db, c) && CountOk(db', c);
    assert forall r :: r in db.redemptions ==> LogRowOk(db, r) && LogRowOk(db', r);
    SameRowsKeepKeys(db, db');
  }
}

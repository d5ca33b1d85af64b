/** The redemption service as the program it is: Redeem works on a transaction's view of the tables
    and commits it, BatchRedeem loops over its codes (internal/redeem/service.go). */
module RedeemService {
  import opened Base
  import opened CodeText
  import opened RequestHash
  import opened Tables
  import opened RedeemSpec

  // ----- A batch request, told without its loop -----

  /** What happens around one position of a batch request: what other transactions commit before
      its redemption takes effect, what that redemption reads, and whether the store fails it. */
  datatype Turn = Turn(others: Db -> Db, env: Env, broken: bool)

  datatype Reply = Rejected | Replied(body: Body) | ConflictReply | StoreError

  /** Where the transaction that holds a batch's key fails, if it does: while it takes the key, or
      while it stores the answer and commits. */
  datatype KeyFault = NoFault | FailsToTake | FailsToStore

  predicate IsUsable(code: string) { code != "" && |code| <= MAX_CODE_LENGTH }

  predicate IsSameCode(codes: seq<string>, i: nat, j: nat)
    requires i < |codes| && j < |codes|
  {
    Normalize(codes[i]) == Normalize(codes[j])
  }

  /** Position i holds the first occurrence of a usable code. */
  ghost predicate IsFirst(codes: seq<string>, i: nat)
    requires i < |codes|
  {
    IsUsable(Normalize(codes[i])) && forall j :: 0 <= j < i ==> !IsSameCode(codes, i, j)
  }

  datatype Progress = Progress(db: Db, answers: seq<Option<Response>>, broken: bool)

  function KeylessTicket(user: string, code: string): (t: Ticket)
  {
    Ticket(user, Normalize(code), None)
  }

  function AnswerOf(db: Db, t: Ticket, env: Env): (r: Response)
    requires t.key.None?
  {
    RedeemFresh(db, t, env).1
  }

  /** The first n positions: the redemption of each first occurrence, in order, and nothing else. */
  ghost function RunTo(db: Db, user: string, codes: seq<string>, turns: seq<Turn>, n: nat): (p: Progress)
    requires n <= |codes| == |turns|
    ensures |p.answers| <= n && (!p.broken ==> |p.answers| == n)
  {
    if n == 0 then Progress(db, [], false)
    else
      var p := RunTo(db, user, codes, turns, n - 1);
      if p.broken then p
      else if !IsFirst(codes, n - 1) then p.(answers := p.answers + [None])
      else if turns[n - 1].broken then p.(db := turns[n - 1].others(p.db), broken := true)
      else
        var (db', resp) := RedeemFresh(turns[n - 1].others(p.db), KeylessTicket(user, codes[n - 1]), turns[n - 1].env);
        p.(db := db', answers := p.answers + [Some(resp)])
  }

  function ItemOf(code: string, answer: Option<Response>): (i: BatchItem)
  {
    if answer.None? then BatchItem(TrimSpace(code), false, InvalidInput, None)
    else if answer.value.ok then BatchItem(answer.value.code, true, answer.value.result, answer)
    else BatchItem(TrimSpace(code), false, answer.value.result, None)
  }

  /** One more item: counted and appended. */
  function Tally(g: BatchResponse, item: BatchItem): (g': BatchResponse)
  {
    (if item.ok then g.(succeeded := g.succeeded + 1) else g.(failed := g.failed + 1)).(results := g.results + [item])
  }

  /** The answer of a batch request, from the answers of its positions. */
  function GroupOf(codes: seq<string>, answers: seq<Option<Response>>): (g: BatchResponse)
    requires |answers| <= |codes|
  {
    if answers == [] then BatchResponse(true, |codes|, 0, 0, [])
    else
      var n := |answers| - 1;
      Tally(GroupOf(codes, answers[..n]), ItemOf(codes[n], answers[n]))
  }

  predicate BatchAdmitted(user: string, codes: seq<string>, key: string) {
    user != "" && |user| <= MAX_USER_LENGTH && codes != [] && ValidKey(key)
  }

  ghost function BatchFresh(db: Db, user: string, codes: seq<string>, key: Option<string>, turns: seq<Turn>,
                            fault: KeyFault): (r: (Db, Reply))
    requires |codes| == |turns|
  {
    var p := RunTo(db, user, codes, turns, |codes|);
    if p.broken || (key.Some? && fault.FailsToStore?) then (p.db, StoreError)
    else
      var body := Many(GroupOf(codes, p.answers));
      (p.db.(keys := StoreKey(p.db.keys, key, BatchBytes(user, codes), body)), Replied(body))
  }

  /** The whole batch request. */
  ghost function AtomicBatch(db: Db, user: string, codes: seq<string>, key: string, turns: seq<Turn>,
                             fault: KeyFault): (r: (Db, Reply))
    requires |codes| == |turns|
  {
    var user := TrimSpace(user);
    if !BatchAdmitted(user, codes, key) then (db, Rejected)
    else if key == "" then BatchFresh(db, user, codes, None, turns, fault)
    else if fault.FailsToTake? then (db, StoreError)
    else if key in db.keys && db.keys[key].hash != BatchBytes(user, codes) then (db, ConflictReply)
    else if key in db.keys && db.keys[key].response.Some? then (db, Replied(db.keys[key].response.value))
    else BatchFresh(db, user, codes, Some(key), turns, fault)
  }

  /** Redeem as a whole: a request that fails the input checks or the store changes nothing. */
  function RedeemReply(db: Db, t: Option<Ticket>, env: Env, broken: bool): (r: (Db, Reply))
  {
    if t.None? then (db, Rejected)
    else if broken then (db, StoreError)
    else
      var (db', answer) := AtomicRedeem(db, t.value, env);
      (db', match answer case Answered(body) => Replied(body) case KeyConflict => ConflictReply)
  }

  // ----- The program -----

  class Service {
    var db: Db

    constructor ()
      ensures db == EMPTY
    {
      db := EMPTY;
    }

    /** Redeem: the input checks and the idempotency key, then the rest in the transaction's view
        `tx`. An error anywhere leaves `db` as it was. */
    method Redeem(user: string, code: string, key: string, env: Env, broken: bool) returns (reply: Reply)
      modifies this
      ensures (db, reply) == RedeemReply(old(db), Admit(user, code, key), env, broken)
      ensures Admit(user, code, key).None? ==> reply == Rejected && db == old(db)
      ensures Admit(user, code, key).Some? && broken ==> reply == StoreError && db == old(db)
      ensures Admit(user, code, key).Some? && !broken ==>
                var (db', answer) := AtomicRedeem(old(db), Admit(user, code, key).value, env);
                && db == db'
                && match answer
                   case Answered(body) => reply == Replied(body)
                   case KeyConflict => reply == ConflictReply
    {
      var user' := TrimSpace(user);
      var code' := Normalize(code);
      if user' == "" || code' == "" {
        return Rejected;
      }
      if |user'| > MAX_USER_LENGTH {
        return Rejected;
      }
      if |code'| > MAX_CODE_LENGTH {
        return Rejected;
      }
      if !ValidKey(key) {
        return Rejected;
      }
      if broken {
        return StoreError;
      }

      var tx := db;
      var t := Ticket(user', code', if key == "" then None else Some(key));
      if key != "" {
        if key !in tx.keys {
          tx := tx.(keys := tx.keys[key := KeyRow(TicketHash(t), None)]);
          PendingKeyIsUnseen(old(db), t, env);
        } else {
          var existing := tx.keys[key];
          if existing.hash != TicketHash(t) {
            return ConflictReply;
          }
          if existing.response.Some? {
            return Replied(existing.response.value);
          }
        }
      }
      var resp := Settle(tx, t, env);
      reply := Replied(One(resp));
    }

    /** GetCodeByCode and what follows it. */
    method Settle(tx: Db, t: Ticket, env: Env) returns (resp: Response)
      requires t.key.Some? ==> t.key.value in tx.keys
      modifies this
      ensures (db, resp) == RedeemFresh(tx, t, env)
    {
      var id := LookupCode(tx, t.code);
      if id.None? {
        resp := RecordFailure(tx, t, None, None, InvalidCode, env);
      } else {
        resp := SettleRow(tx, t, id.value, tx.batches[tx.codes[id.value].batchId], env);
      }
    }

    /** The checks and writes on a code row that is locked. */
    method SettleRow(tx: Db, t: Ticket, id: nat, batch: Batch, env: Env) returns (resp: Response)
      requires id in tx.codes
      requires t.key.Some? ==> t.key.value in tx.keys
      modifies this
      ensures (db, resp) == RedeemRow(tx, t, id, batch, env)
    {
      var row := tx.codes[id];
      var bad := CheckCodeState(row, batch, env.now);
      if bad.Some? {
        resp := RecordFailure(tx, t, Some(id), Some(row.batchId), bad.value, env);
        return;
      }
      var cred: Option<nat> := None;
      if batch.assign {
        cred := FreeCredential(tx, batch.plan, env.start, env.skipped);
        if cred.None? {
          resp := RecordFailure(tx, t, Some(id), Some(row.batchId), CredentialUnavailable, env);
          return;
        }
      }
      resp := RecordSuccess(tx, t, id, batch, cred, env);
    }

    /** The writes of the success path, in their order, and the commit. */
    method RecordSuccess(tx: Db, t: Ticket, id: nat, batch: Batch, cred: Option<nat>, env: Env) returns (resp: Response)
      requires id in tx.codes
      requires cred.Some? ==> cred.value in tx.credentials
      requires t.key.Some? ==> t.key.value in tx.keys
      modifies this
      ensures db == Succeed(tx, t, id, batch, cred, env)
      ensures resp == SuccessResponse(t, batch, if cred.Some? then Some(tx.credentials[cred.value]) else None, env)
    {
      var row := tx.codes[id];
      var tx' := tx.(codes := tx.codes[id := row.(useCount := row.useCount + 1)]);
      var entry := SuccessEntry(t, id, row.batchId, batch, env.eventId);
      tx' := tx'.(redemptions := tx'.redemptions[env.redemptionId := entry]);
      if batch.webhook {
        tx' := tx'.(outbox := tx'.outbox[env.eventId := env.redemptionId]);
      }
      var data: Option<Credential> := None;
      if cred.Some? {
        data := Some(tx'.credentials[cred.value]);
        var used := MarkUsed(tx'.credentials[cred.value], env.redemptionId);
        tx' := tx'.(credentials := tx'.credentials[cred.value := used]);
      }
      resp := SuccessResponse(t, batch, data, env);
      if t.key.Some? {
        tx' := tx'.(keys := tx'.keys[t.key.value := tx'.keys[t.key.value].(response := Some(Stored(One(resp))))]);
      }
      db := tx';
    }

    /** recordFailure and the commit that follows it. */
    method RecordFailure(tx: Db, t: Ticket, codeId: Option<nat>, batchId: Option<nat>, v: Verdict, env: Env)
      returns (resp: Response)
      requires t.key.Some? ==> t.key.value in tx.keys
      modifies this
      ensures resp == Failure(v)
      ensures db == Fail(tx, t, codeId, batchId, v, env.redemptionId)
    {
      var tx' := tx.(redemptions := tx.redemptions[env.redemptionId := FailureEntry(t, codeId, batchId, v)]);
      if t.key.Some? {
        tx' := tx'.(keys := tx'.keys[t.key.value := tx'.keys[t.key.value].(response := Some(Stored(One(Failure(v)))))]);
      }
      db := tx';
      resp := Failure(v);
    }

    /** BatchRedeem. The key's own transaction stays open around the loop: its row is written only
        at the end, and lost when an item fails or the transaction itself does. */
    method BatchRedeem(user: string, codes: seq<string>, key: string, turns: seq<Turn>, fault: KeyFault)
      returns (reply: Reply)
      requires |turns| == |codes|
      modifies this
      ensures (db, reply) == AtomicBatch(old(db), user, codes, key, turns, fault)
    {
      var user' := TrimSpace(user);
      if user' == "" {
        return Rejected;
      }
      if |user'| > MAX_USER_LENGTH {
        return Rejected;
      }
      if |codes| == 0 {
        return Rejected;
      }
      if !ValidKey(key) {
        return Rejected;
      }
      var hash := BatchBytes(user', codes);
      if key != "" {
        if fault.FailsToTake? {
          return StoreError;
        }
        if key in db.keys {
          if db.keys[key].hash != hash {
            return ConflictReply;
          }
          if db.keys[key].response.Some? {
            return Replied(db.keys[key].response.value);
          }
        }
      }

      AllFirstsAreAdmitted(user, codes, key);
      var group := RedeemEach(user', codes, turns);
      if group.None? {
        return StoreError;
      }
      if key != "" {
        if fault.FailsToStore? {
          return StoreError;
        }
        db := db.(keys := StoreKey(db.keys, Some(key), hash, Many(group.value)));
      }
      reply := Replied(Many(group.value));
    }

    /** The loop of BatchRedeem; None when an item's transaction fails. */
    method RedeemEach(user: string, codes: seq<string>, turns: seq<Turn>) returns (group: Option<BatchResponse>)
      requires |turns| == |codes| && ItemsAdmitted(user, codes)
      modifies this
      ensures var p := RunTo(old(db), user, codes, turns, |codes|);
              db == p.db && group == if p.broken then None else Some(GroupOf(codes, p.answers))
    {
      var resp := BatchResponse(true, |codes|, 0, 0, []);
      var seen: set<string> := {};
      ghost var start := db;
      for i := 0 to |codes|
        invariant RunsTo(start, user, codes, turns, i, db, resp)
        invariant seen == SeenSoFar(codes, i)
      {
        var item;
        item, seen := HandleCode(user, codes, turns, i, seen, start, resp);
        if item.None? {
          return None;
        }
        resp := Tally(resp, item.value);
      }
      group := Some(resp);
    }

    /** The body of the loop: an empty, overlong or repeated code is answered at once, any other is
        redeemed. */
    method HandleCode(user: string, codes: seq<string>, turns: seq<Turn>, i: nat, seen: set<string>,
                      ghost start: Db, ghost resp: BatchResponse)
      returns (item: Option<BatchItem>, seen': set<string>)
      requires i < |codes| == |turns| && ItemsAdmitted(user, codes)
      requires RunsTo(start, user, codes, turns, i, db, resp) && seen == SeenSoFar(codes, i)
      modifies this
      ensures item.Some? ==>
                && RunsTo(start, user, codes, turns, i + 1, db, Tally(resp, item.value))
                && seen' == SeenSoFar(codes, i + 1)
      ensures item.None? ==> var p := RunTo(start, user, codes, turns, |codes|); p.broken && p.db == db
    {
      var code := Normalize(codes[i]);
      seen' := seen;
      SeenStep(codes, i);
      if code == "" || |code| > MAX_CODE_LENGTH || code in seen {
        SkipStep(start, user, codes, turns, i, db, resp);
        return Some(BatchItem(TrimSpace(codes[i]), false, InvalidInput, None)), seen';
      }
      seen' := seen' + {code};
      ghost var before := db;
      var answer := RedeemItem(user, codes[i], turns[i]);
      if answer.None? {
        BrokenStep(start, user, codes, turns, i, before, resp);
        return None, seen';
      }
      RedeemStep(start, user, codes, turns, i, before, resp);
      var result := BatchItem(TrimSpace(codes[i]), answer.value.ok, answer.value.result, None);
      if answer.value.ok {
        result := result.(code := answer.value.code, redemption := answer);
      }
      item := Some(result);
    }

    /** One item: what others commit first, then its own redemption, which has no key. */
    method RedeemItem(user: string, code: string, turn: Turn) returns (resp: Option<Response>)
      requires Admit(user, code, "") == Some(KeylessTicket(user, code))
      modifies this
      ensures turn.broken ==> resp.None? && db == turn.others(old(db))
      ensures !turn.broken ==>
                resp.Some? && (db, resp.value) == RedeemFresh(turn.others(old(db)), KeylessTicket(user, code), turn.env)
    {
      db := turn.others(db);
      var r := Redeem(user, code, "", turn.env, turn.broken);
      if r.StoreError? {
        resp := None;
      } else {
        resp := Some(r.body.response);
      }
    }
  }

  // ----- Steps of the loop -----

  /** After n positions the loop is where RunTo says, with one item per position. */
  ghost predicate RunsTo(start: Db, user: string, codes: seq<string>, turns: seq<Turn>, n: nat, db: Db,
                         resp: BatchResponse)
    requires n <= |codes| == |turns|
  {
    var p := RunTo(start, user, codes, turns, n);
    !p.broken && p.db == db && resp == GroupOf(codes, p.answers)
  }

  /** The usable codes of the first n positions. */
  ghost function SeenSoFar(codes: seq<string>, n: nat): (seen: set<string>)
    requires n <= |codes|
  {
    if n == 0 then {}
    else SeenSoFar(codes, n - 1) + if IsUsable(Normalize(codes[n - 1])) then {Normalize(codes[n - 1])} else {}
  }

  lemma {:induction false} SeenHolds(codes: seq<string>, n: nat, c: string)
    requires n <= |codes|
    ensures c in SeenSoFar(codes, n) <==> IsUsable(c) && exists j :: 0 <= j < n && Normalize(codes[j]) == c
  {
    if n > 0 {
      SeenHolds(codes, n - 1, c);
    }
  }

  /** The seen set tells first occurrences apart. */
  lemma SeenStep(codes: seq<string>, i: nat)
    requires i < |codes|
    ensures var c, seen := Normalize(codes[i]), SeenSoFar(codes, i);
            && (IsFirst(codes, i) <==> IsUsable(c) && c !in seen)
            && SeenSoFar(codes, i + 1) == if IsFirst(codes, i) then seen + {c} else seen
  {
    SeenHolds(codes, i, Normalize(codes[i]));
    assert forall j :: 0 <= j < i ==> (IsSameCode(codes, i, j) <==> Normalize(codes[j]) == Normalize(codes[i]));
  }

  lemma TallyStep(codes: seq<string>, answers: seq<Option<Response>>, a: Option<Response>)
    requires |answers| < |codes|
    ensures GroupOf(codes, answers + [a]) == Tally(GroupOf(codes, answers), ItemOf(codes[|answers|], a))
  {
    assert (answers + [a])[..|answers|] == answers;
  }

  lemma SkipStep(start: Db, user: string, codes: seq<string>, turns: seq<Turn>, i: nat, db: Db, resp: BatchResponse)
    requires i < |codes| == |turns| && RunsTo(start, user, codes, turns, i, db, resp) && !IsFirst(codes, i)
    ensures RunsTo(start, user, codes, turns, i + 1, db,
                   Tally(resp, BatchItem(TrimSpace(codes[i]), false, InvalidInput, None)))
  {
    TallyStep(codes, RunTo(start, user, codes, turns, i).answers, None);
  }

  lemma BrokenStep(start: Db, user: string, codes: seq<string>, turns: seq<Turn>, i: nat, db: Db, resp: BatchResponse)
    requires i < |codes| == |turns| && RunsTo(start, user, codes, turns, i, db, resp)
    requires IsFirst(codes, i) && turns[i].broken
    ensures RunTo(start, user, codes, turns, |codes|).broken
    ensures RunTo(start, user, codes, turns, |codes|).db == turns[i].others(db)
  {
    BrokenStays(start, user, codes, turns, i + 1, |codes|);
  }

  lemma {:induction false} BrokenStays(start: Db, user: string, codes: seq<string>, turns: seq<Turn>, i: nat, n: nat)
    requires i <= n <= |codes| == |turns| && RunTo(start, user, codes, turns, i).broken
    ensures RunTo(start, user, codes, turns, n) == RunTo(start, user, codes, turns, i)
  {
    if i < n {
      BrokenStays(start, user, codes, turns, i, n - 1);
    }
  }

  lemma RedeemStep(start: Db, user: string, codes: seq<string>, turns: seq<Turn>, i: nat, db: Db, resp: BatchResponse)
    requires i < |codes| == |turns| && RunsTo(start, user, codes, turns, i, db, resp)
    requires IsFirst(codes, i) && !turns[i].broken
    ensures var (db', answer) := RedeemFresh(turns[i].others(db), KeylessTicket(user, codes[i]), turns[i].env);
            RunsTo(start, user, codes, turns, i + 1, db', Tally(resp, ItemOf(codes[i], Some(answer))))
  {
    var (db', answer) := RedeemFresh(turns[i].others(db), KeylessTicket(user, codes[i]), turns[i].env);
    TallyStep(codes, RunTo(start, user, codes, turns, i).answers, Some(answer));
  }

  /** The redemptions of an admitted batch request never meet Redeem's own input checks. */
  lemma FirstsAreAdmitted(user: string, codes: seq<string>, key: string, i: nat)
    requires BatchAdmitted(TrimSpace(user), codes, key) && i < |codes| && IsFirst(codes, i)
    ensures Admit(TrimSpace(user), codes[i], "") == Some(KeylessTicket(TrimSpace(user), codes[i]))
  {
    TrimSpaceIsIdempotent(user);
  }

  /** Redeem's input checks pass at every first occurrence. */
  ghost predicate ItemsAdmitted(user: string, codes: seq<string>) {
    forall i :: 0 <= i < |codes| && IsFirst(codes, i) ==>
      Admit(user, codes[i], "") == Some(KeylessTicket(user, codes[i]))
  }

  lemma AllFirstsAreAdmitted(user: string, codes: seq<string>, key: string)
    requires BatchAdmitted(TrimSpace(user), codes, key)
    ensures ItemsAdmitted(TrimSpace(user), codes)
  {
    forall i | 0 <= i < |codes| && IsFirst(codes, i)
      ensures Admit(TrimSpace(user), codes[i], "") == Some(KeylessTicket(TrimSpace(user), codes[i]))
    {
      FirstsAreAdmitted(user, codes, key, i);
    }
  }

  // ----- What a batch request amounts to -----

  /** The positions of first occurrences among the first n codes, in order. */
  ghost function Firsts(codes: seq<string>, n: nat): (r: seq<nat>)
    requires n <= |codes|
  {
    if n == 0 then [] else Firsts(codes, n - 1) + if IsFirst(codes, n - 1) then [n - 1] else []
  }

  /** Redeeming the codes at the given positions, one after another. */
  ghost function RedeemAll(db: Db, user: string, codes: seq<string>, turns: seq<Turn>, at: seq<nat>)
      : (r: (Db, seq<Response>))
    requires |codes| == |turns| && Within(at, |codes|)
    ensures |r.1| == |at|
  {
    if at == [] then (db, [])
    else
      var (db', rs) := RedeemAll(db, user, codes, turns, at[..|at| - 1]);
      var i := at[|at| - 1];
      var (db'', resp) := RedeemFresh(turns[i].others(db'), KeylessTicket(user, codes[i]), turns[i].env);
      (db'', rs + [resp])
  }

  lemma InAppended(s: seq<nat>, last: nat, b: bool, i: nat)
    ensures i in s + (if b then [last] else []) <==> i in s || (b && i == last)
  {
  }

  /** The redeemed positions are the first occurrences. */
  lemma {:induction false} FirstsAreThePositions(codes: seq<string>, n: nat, i: nat)
    requires n <= |codes|
    ensures i in Firsts(codes, n) <==> i < n && IsFirst(codes, i)
  {
    if n > 0 {
      FirstsAreThePositions(codes, n - 1, i);
      InAppended(Firsts(codes, n - 1), n - 1, IsFirst(codes, n - 1), i);
    }
  }

  lemma {:induction false} FirstsAreOrdered(codes: seq<string>, n: nat)
    requires n <= |codes|
    ensures Within(Firsts(codes, n), n)
    ensures forall k, l :: 0 <= k < l < |Firsts(codes, n)| ==> Firsts(codes, n)[k] < Firsts(codes, n)[l]
  {
    if n > 0 {
      FirstsAreOrdered(codes, n - 1);
    }
  }

  /** What a first occurrence is. */
  lemma FirstsAre(codes: seq<string>, i: nat)
    requires i < |codes|
    ensures IsFirst(codes, i)
       <==> && 1 <= |Normalize(codes[i])| <= 128
            && forall j :: 0 <= j < i ==> Normalize(codes[j]) != Normalize(codes[i])
  {
    assert forall j :: 0 <= j < i ==> (IsSameCode(codes, i, j) <==> Normalize(codes[j]) == Normalize(codes[i]));
  }

  /** Every usable code has a first occurrence. */
  lemma {:induction false} EveryCodeHasFirst(codes: seq<string>, i: nat) returns (j: nat)
    requires i < |codes| && 1 <= |Normalize(codes[i])| <= 128
    ensures j <= i && IsFirst(codes, j) && Normalize(codes[j]) == Normalize(codes[i])
  {
    j := i;
    if !IsFirst(codes, i) {
      var k :| 0 <= k < i && IsSameCode(codes, i, k);
      j := EveryCodeHasFirst(codes, k);
    }
  }

  /** Two first occurrences are different codes. */
  lemma FirstsDiffer(codes: seq<string>, i: nat, j: nat)
    requires i < j < |codes| && IsFirst(codes, j)
    ensures Normalize(codes[i]) != Normalize(codes[j])
  {
    assert !IsSameCode(codes, j, i);
  }

  /** After n positions the tables are those of redeeming the first occurrences among them. */
  ghost predicate IsRedeemAll(db: Db, user: string, codes: seq<string>, turns: seq<Turn>, n: nat)
    requires n <= |codes| == |turns|
  {
    && Within(Firsts(codes, n), n)
    && RunTo(db, user, codes, turns, n).db == RedeemAll(db, user, codes, turns, Firsts(codes, n)).0
  }

  lemma FirstIsRedeemed(db: Db, user: string, codes: seq<string>, turns: seq<Turn>, n: nat)
    requires 0 < n <= |codes| == |turns| && !RunTo(db, user, codes, turns, n).broken
    requires IsRedeemAll(db, user, codes, turns, n - 1) && IsFirst(codes, n - 1)
    ensures IsRedeemAll(db, user, codes, turns, n)
  {
    FirstsAreOrdered(codes, n);
    assert Firsts(codes, n) == Firsts(codes, n - 1) + [n - 1];
    NextIsRedeemed(db, user, codes, turns, n, Firsts(codes, n - 1));
  }

  lemma NextIsRedeemed(db: Db, user: string, codes: seq<string>, turns: seq<Turn>, n: nat, at: seq<nat>)
    requires 0 < n <= |codes| == |turns| && !RunTo(db, user, codes, turns, n).broken && IsFirst(codes, n - 1)
    requires Within(at, |codes|) && Within(at + [n - 1], |codes|)
    requires RunTo(db, user, codes, turns, n - 1).db == RedeemAll(db, user, codes, turns, at).0
    ensures RunTo(db, user, codes, turns, n).db == RedeemAll(db, user, codes, turns, at + [n - 1]).0
  {
    RunStep(db, user, codes, turns, n);
    OneMoreRedeemed(db, user, codes, turns, at, n - 1);
  }

  lemma OtherIsSkipped(db: Db, user: string, codes: seq<string>, turns: seq<Turn>, n: nat)
    requires 0 < n <= |codes| == |turns| && !RunTo(db, user, codes, turns, n).broken
    requires IsRedeemAll(db, user, codes, turns, n - 1) && !IsFirst(codes, n - 1)
    ensures IsRedeemAll(db, user, codes, turns, n)
  {
    RunStep(db, user, codes, turns, n);
    assert Firsts(codes, n) == Firsts(codes, n - 1);
  }

  /** A batch request that is not cut short has the effect of redeeming the first occurrences, in
      order and once each. */
  lemma {:induction false} BatchIsRedeemAll(db: Db, user: string, codes: seq<string>, turns: seq<Turn>, n: nat)
    requires n <= |codes| == |turns| && !RunTo(db, user, codes, turns, n).broken
    ensures Within(Firsts(codes, n), n)
    ensures RunTo(db, user, codes, turns, n).db == RedeemAll(db, user, codes, turns, Firsts(codes, n)).0
  {
    if n > 0 {
      RunStep(db, user, codes, turns, n);
      BatchIsRedeemAll(db, user, codes, turns, n - 1);
      assert IsRedeemAll(db, user, codes, turns, n - 1);
      if IsFirst(codes, n - 1) {
        FirstIsRedeemed(db, user, codes, turns, n);
      } else {
        OtherIsSkipped(db, user, codes, turns, n);
      }
    }
  }

  lemma RunStep(db: Db, user: string, codes: seq<string>, turns: seq<Turn>, n: nat)
    requires 0 < n <= |codes| == |turns| && !RunTo(db, user, codes, turns, n).broken
    ensures var p := RunTo(db, user, codes, turns, n - 1);
            && !p.broken
            && RunTo(db, user, codes, turns, n).db
               == if !IsFirst(codes, n - 1) then p.db
                  else RedeemFresh(turns[n - 1].others(p.db), KeylessTicket(user, codes[n - 1]), turns[n - 1].env).0
  {
  }

  ghost predicate Within(at: seq<nat>, n: nat) { forall k :: 0 <= k < |at| ==> at[k] < n }

  lemma OneMoreRedeemed(db: Db, user: string, codes: seq<string>, turns: seq<Turn>, at: seq<nat>, i: nat)
    requires |codes| == |turns| && Within(at, |codes|) && i < |codes| && Within(at + [i], |codes|)
    ensures var db' := RedeemAll(db, user, codes, turns, at).0;
            RedeemAll(db, user, codes, turns, at + [i]).0
            == RedeemFresh(turns[i].others(db'), KeylessTicket(user, codes[i]), turns[i].env).0
  {
    assert (at + [i])[..|at|] == at;
  }

  /** The answers at the first occurrences are those redemptions' own; the other positions have none. */
  lemma {:induction false} AnswersAreTheirs(db: Db, user: string, codes: seq<string>, turns: seq<Turn>, n: nat, i: nat)
    requires i < n <= |codes| == |turns| && !RunTo(db, user, codes, turns, n).broken
    ensures !RunTo(db, user, codes, turns, i).broken
    ensures var before, p := RunTo(db, user, codes, turns, i), RunTo(db, user, codes, turns, n);
            p.answers[i] == if !IsFirst(codes, i) then None
                            else Some(AnswerOf(turns[i].others(before.db), KeylessTicket(user, codes[i]), turns[i].env))
  {
    if i < n - 1 {
      AnswersAreTheirs(db, user, codes, turns, n - 1, i);
    }
  }

  /** The items that say ok. */
  ghost function Oks(items: seq<BatchItem>): (s: set<nat>)
  {
    set i: nat | i < |items| && items[i].ok
  }

  /** One item per code, in order. */
  lemma {:induction false} GroupKeepsOrder(codes: seq<string>, answers: seq<Option<Response>>, i: nat)
    requires |answers| <= |codes|
    ensures var g := GroupOf(codes, answers); g.ok && g.total == |codes| && |g.results| == |answers|
    ensures i < |answers| ==> GroupOf(codes, answers).results[i] == ItemOf(codes[i], answers[i])
  {
    if answers != [] {
      var n := |answers| - 1;
      GroupKeepsOrder(codes, answers[..n], i);
      if i < n {
        assert answers[..n][i] == answers[i];
      }
    }
  }

  /** What the item at a position says of the answer there: a granted answer goes out whole, a
      refusal by its verdict, and a position without an answer as invalid input. */
  lemma ItemsTell(codes: seq<string>, answers: seq<Option<Response>>, i: nat)
    requires i < |answers| <= |codes|
    ensures i < |GroupOf(codes, answers).results|
    ensures var item := GroupOf(codes, answers).results[i];
            match answers[i]
            case None =>
              !item.ok && item.result == InvalidInput && item.redemption.None? && item.code == TrimSpace(codes[i])
            case Some(a) =>
              && item.ok == a.ok && item.result == a.result
              && item.redemption == (if a.ok then Some(a) else None)
              && item.code == if a.ok then a.code else TrimSpace(codes[i])
  {
    GroupKeepsOrder(codes, answers, i);
  }

  /** Each item of a batch request that is not cut short: at the first occurrence of a usable code it
      tells what redeeming that code without a key answered, anywhere else it says invalid input. */
  lemma BatchItemsTell(db: Db, user: string, codes: seq<string>, turns: seq<Turn>, i: nat)
    requires i < |codes| == |turns| && !RunTo(db, user, codes, turns, |codes|).broken
    ensures |GroupOf(codes, RunTo(db, user, codes, turns, |codes|).answers).results| == |codes|
    ensures var item := GroupOf(codes, RunTo(db, user, codes, turns, |codes|).answers).results[i];
            var before := turns[i].others(RunTo(db, user, codes, turns, i).db);
            var a := RedeemFresh(before, Ticket(user, Normalize(codes[i]), None), turns[i].env).1;
            if IsFirst(codes, i) then
              && item.ok == a.ok && item.result == a.result
              && item.redemption == (if a.ok then Some(a) else None)
              && item.code == if a.ok then a.code else TrimSpace(codes[i])
            else
              !item.ok && item.result == InvalidInput && item.redemption.None? && item.code == TrimSpace(codes[i])
  {
    var answers := RunTo(db, user, codes, turns, |codes|).answers;
    AnswersAreTheirs(db, user, codes, turns, |codes|, i);
    GroupKeepsOrder(codes, answers, i);
    ItemsTell(codes, answers, i);
  }

  /** Which batch requests are turned away. */
  lemma BatchIsRejectedIff(db: Db, user: string, codes: seq<string>, key: string, turns: seq<Turn>, fault: KeyFault)
    requires |codes| == |turns|
    ensures var (db', reply) := AtomicBatch(db, user, codes, key, turns, fault);
            && (reply == Rejected ==> db' == db)
            && (reply == Rejected
                <==> !(&& 1 <= |TrimSpace(user)| <= 256 && codes != []
                       && (key == "" || (Utf8Length(key) <= 128 && key == TrimSpace(key)))))
  {
  }

  /** The two counters add up: Succeeded is the number of items that say ok and Failed that of the
      others. */
  lemma {:induction false} GroupAddsUp(codes: seq<string>, answers: seq<Option<Response>>)
    requires |answers| <= |codes|
    ensures var g := GroupOf(codes, answers);
            g.succeeded == |Oks(g.results)| && g.succeeded + g.failed == |g.results|
  {
    if answers == [] {
      assert Oks([]) == {};
    } else {
      var n := |answers| - 1;
      GroupAddsUp(codes, answers[..n]);
      TallyAddsUp(GroupOf(codes, answers[..n]), ItemOf(codes[n], answers[n]));
    }
  }

  lemma TallyAddsUp(g: BatchResponse, item: BatchItem)
    requires g.succeeded == |Oks(g.results)| && g.succeeded + g.failed == |g.results|
    ensures var g' := Tally(g, item); g'.succeeded == |Oks(g'.results)| && g'.succeeded + g'.failed == |g'.results|
  {
    OksStep(g.results, item);
  }

  lemma OksStep(items: seq<BatchItem>, item: BatchItem)
    ensures |Oks(items + [item])| == |Oks(items)| + if item.ok then 1 else 0
  {
    if item.ok {
      assert Oks(items + [item]) == Oks(items) + {|items|};
    } else {
      assert Oks(items + [item]) == Oks(items);
    }
  }

  /** While the key's insert is open no other transaction can commit a row for that key. */
  ghost predicate KeyIsHeld(turns: seq<Turn>, key: string) {
    forall i, d: Db :: 0 <= i < |turns| && key !in d.keys ==> key !in turns[i].others(d).keys
  }

  lemma KeylessLeavesKeys(db: Db, t: Ticket, env: Env)
    requires t.key.None?
    ensures RedeemFresh(db, t, env).0.keys == db.keys
  {
  }

  lemma {:induction false} KeyStaysFree(db: Db, user: string, codes: seq<string>, turns: seq<Turn>, key: string, n: nat)
    requires n <= |codes| == |turns| && KeyIsHeld(turns, key) && key !in db.keys
    ensures key !in RunTo(db, user, codes, turns, n).db.keys
  {
    if n > 0 {
      KeyStaysFree(db, user, codes, turns, key, n - 1);
      var p := RunTo(db, user, codes, turns, n - 1);
      assert key !in turns[n - 1].others(p.db).keys;
      KeylessLeavesKeys(turns[n - 1].others(p.db), KeylessTicket(user, codes[n - 1]), turns[n - 1].env);
    }
  }

  /** A batch request that was answered is replayed: the same request gets the stored answer and
      changes nothing, a request for other codes or another user conflicts. A batch request that ended
      in an error, at whatever point, leaves its key free. */
  lemma BatchReplays(db: Db, user: string, codes: seq<string>, key: string, turns: seq<Turn>,
                     fault: KeyFault, user2: string, codes2: seq<string>, turns2: seq<Turn>)
    requires |codes| == |turns| && |codes2| == |turns2|
    requires BatchAdmitted(TrimSpace(user), codes, key) && BatchAdmitted(TrimSpace(user2), codes2, key)
    requires key != "" && key !in db.keys && KeyIsHeld(turns, key)
    ensures var (db', reply) := AtomicBatch(db, user, codes, key, turns, fault);
            match reply
            case Replied(body) =>
              var again := AtomicBatch(db', user2, codes2, key, turns2, NoFault);
              && again.0 == db'
              && if BatchBytes(TrimSpace(user2), codes2) == BatchBytes(TrimSpace(user), codes)
                 then again.1.Replied? && BodySaysAgain(body, again.1.body)
                 else again.1 == ConflictReply
            case _ => reply.StoreError? && key !in db'.keys
  {
    KeyStaysFree(db, TrimSpace(user), codes, turns, key, |codes|);
    var reply := AtomicBatch(db, user, codes, key, turns, fault).1;
    if reply.Replied? {
      StoredSaysAgain(reply.body);
    }
  }

  lemma SameCatalogue(db: Db, tx: Db, text: string)
    requires tx == db.(keys := tx.keys)
    ensures LookupCode(tx, text) == LookupCode(db, text)
  {
    assert forall c :: HasText(tx, text, c) <==> HasText(db, text, c);
  }

  lemma SameStock(db: Db, tx: Db, plan: string, start: Time, skipped: set<nat>)
    requires tx == db.(keys := tx.keys)
    ensures FreeCredential(tx, plan, start, skipped) == FreeCredential(db, plan, start, skipped)
  {
    assert forall c :: IsFree(tx, plan, start, skipped, c) <==> IsFree(db, plan, start, skipped, c);
  }

  lemma PendingKeyIsOverwritten(keys: map<string, KeyRow>, k: string, hash: string)
    requires k !in keys
    ensures forall body ::
              StoreKey(keys[k := KeyRow(hash, None)], Some(k), hash, body) == StoreKey(keys, Some(k), hash, body)
  {
    forall body
      ensures StoreKey(keys[k := KeyRow(hash, None)], Some(k), hash, body) == StoreKey(keys, Some(k), hash, body)
    {
      var row := KeyRow(hash, Some(Stored(body)));
      assert keys[k := KeyRow(hash, None)][k := row] == keys[k := row];
    }
  }

  /** A pending key row is what the final key row grows from, and nothing else reads it. */
  lemma PendingKeyIsUnseen(db: Db, t: Ticket, env: Env)
    requires t.key.Some? && t.key.value !in db.keys
    ensures var pending := db.keys[t.key.value := KeyRow(TicketHash(t), None)];
            RedeemFresh(db.(keys := pending), t, env) == RedeemFresh(db, t, env)
  {
    var tx := db.(keys := db.keys[t.key.value := KeyRow(TicketHash(t), None)]);
    PendingKeyIsOverwritten(db.keys, t.key.value, TicketHash(t));
    SameCatalogue(db, tx, t.code);
    var id := LookupCode(db, t.code);
    if id.Some? {
      PendingKeyIsUnseenByRow(db, t, id.value, db.batches[db.codes[id.value].batchId], env);
    }
  }

  lemma PendingKeyIsUnseenByRow(db: Db, t: Ticket, id: nat, batch: Batch, env: Env)
    requires t.key.Some? && t.key.value !in db.keys && id in db.codes
    ensures RedeemRow(db.(keys := db.keys[t.key.value := KeyRow(TicketHash(t), None)]), t, id, batch, env)
         == RedeemRow(db, t, id, batch, env)
  {
    var tx := db.(keys := db.keys[t.key.value := KeyRow(TicketHash(t), None)]);
    PendingKeyIsOverwritten(db.keys, t.key.value, TicketHash(t));
    SameStock(db, tx, batch.plan, env.start, env.skipped);
  }
}

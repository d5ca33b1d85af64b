/** The tables of db/migrations and the values that the redemption service returns and stores.
    Texts shown to people (messages) are left out: each is fixed by the verdict. */
module Tables {
  import opened Base

  datatype Batch = Batch(
    name: string, prefix: string, payload: string, expiresAt: Option<Time>, maxUses: int,
    webhook: bool, assign: bool, plan: string, active: bool)

  datatype Code = Code(batchId: nat, text: string, enabled: bool, useCount: int)

  datatype Credential = Credential(
    plan: string, expires: Option<Time>, data: string, used: bool, redemptionId: Option<nat>)

  datatype Verdict =
    | Success
    | InvalidInput
    | InvalidCode
    | CodeDisabled
    | BatchDisabled
    | Expired
    | CodeUsedUp
    | CredentialUnavailable

  datatype Redemption = Redemption(
    codeId: Option<nat>, batchId: Option<nat>, codeText: string, userId: string, payload: string,
    result: Verdict, key: Option<string>, eventId: Option<nat>)

  datatype Response = Response(
    ok: bool, result: Verdict, batch: string, code: string, userId: string, payload: string,
    credential: Option<string>, redeemedAt: Option<Time>, eventId: Option<nat>, webhookPending: bool)

  datatype BatchItem = BatchItem(code: string, ok: bool, result: Verdict, redemption: Option<Response>)

  datatype BatchResponse = BatchResponse(
    ok: bool, total: nat, succeeded: nat, failed: nat, results: seq<BatchItem>)

  /** What a request is answered with. */
  datatype Body = One(response: Response) | Many(group: BatchResponse)

  datatype KeyRow = KeyRow(hash: string, response: Option<Body>)

  datatype Db = Db(
    batches: map<nat, Batch>,
    codes: map<nat, Code>,
    credentials: map<nat, Credential>,
    redemptions: map<nat, Redemption>,
    outbox: map<nat, nat>,  // event id to redemption id
    keys: map<string, KeyRow>)

  const EMPTY: Db := Db(map[], map[], map[], map[], map[], map[])

  // ----- What JSON keeps of an answer -----

  /** EventID and WebhookPending are not serialised. */
  function StoredResponse(r: Response): (s: Response)
  {
    r.(eventId := None, webhookPending := false)
  }

  function StoredItem(i: BatchItem): (s: BatchItem)
  {
    if i.redemption.Some? then i.(redemption := Some(StoredResponse(i.redemption.value))) else i
  }

  function Stored(b: Body): (s: Body)
  {
    match b
    case One(r) => One(StoredResponse(r))
    case Many(g) => Many(g.(results := seq(|g.results|, i requires 0 <= i < |g.results| => StoredItem(g.results[i]))))
  }

  // ----- What a client is told again -----

  /** b tells again what a told, less its event. */
  predicate SaysAgain(a: Response, b: Response) {
    && b.ok == a.ok && b.result == a.result && b.batch == a.batch && b.code == a.code && b.userId == a.userId
    && b.payload == a.payload && b.credential == a.credential && b.redeemedAt == a.redeemedAt
    && b.eventId.None? && !b.webhookPending
  }

  predicate ItemSaysAgain(a: BatchItem, b: BatchItem) {
    && b.code == a.code && b.ok == a.ok && b.result == a.result
    && (b.redemption.Some? <==> a.redemption.Some?)
    && (a.redemption.Some? ==> SaysAgain(a.redemption.value, b.redemption.value))
  }

  predicate BodySaysAgain(a: Body, b: Body) {
    match a
    case One(r) => b.One? && SaysAgain(r, b.response)
    case Many(g) =>
      && b.Many? && b.group.ok == g.ok && b.group.total == g.total
      && b.group.succeeded == g.succeeded && b.group.failed == g.failed
      && |b.group.results| == |g.results|
      && forall i :: 0 <= i < |g.results| ==> ItemSaysAgain(g.results[i], b.group.results[i])
  }

  /** What is stored of an answer says it again. */
  lemma StoredSaysAgain(b: Body)
    ensures BodySaysAgain(b, Stored(b))
  {
  }

  lemma StoredIsIdempotent(b: Body)
    ensures Stored(Stored(b)) == Stored(b)
  {
    if b.Many? {
      assert Stored(Stored(b)).group.results == Stored(b).group.results;
    }
  }
}

/** Webhook delivery (internal/webhook/worker.go, the outbox statements of
    internal/store/queries.sql.go, and ResendWebhook of internal/httpapi/admin.go).

    Any number of workers lease events, deliver them and report the outcome in two separate writes,
    first to the outbox row, then to the redemption row. Between any two of these a worker may be
    delayed for any time, crash, or have its write refused. A worker reads its own clock before the
    outbox write, at a time of its own that the database's clock does not bound. An outbox row is named by its event id;
    row ids are as fresh as event ids, so one number stands for both. */
module OutboxProtocol {
  import opened Base
  import opened Backoff

  /** The webhook_status type. */
  datatype Status = Unused | Pending | Success | Failed | DeadLetter

  const LEASE: int := 120 * SECOND

  datatype Event = Event(
    redemption: nat, status: Status, scheduledAt: Time,
    token: Option<nat>, leaseUntil: Option<Time>, attempts: nat)

  /** The webhook columns of a redemption row. */
  datatype Hook = Hook(success: bool, status: Status, event: Option<nat>, attempts: nat)

  datatype Tables = Tables(outbox: map<nat, Event>, hooks: map<nat, Hook>)

  /** A worker's leased event, as the lease statement returned it, and how far the worker is:
      still to write the outbox row, or still to write the redemption row. */
  datatype Phase = Delivering | Reporting(status: Status)

  datatype Job = Job(event: nat, redemption: nat, attempts: nat, until: Time, phase: Phase)

  /** Jobs are named by their lease tokens. */
  datatype State = State(db: Tables, jobs: map<nat, Job>, now: Time, nextToken: nat, nextEvent: nat)

  const INITIAL: State := State(Tables(map[], map[]), map[], 0, 0, 0)

  predicate Live(e: Event) { e.status.Pending? || e.status.Failed? }

  predicate Terminal(s: Status) { s.Success? || s.DeadLetter? }

  // ----- Statements -----

  function NewEvent(redemption: nat, now: Time): (e: Event)
  {
    Event(redemption, Pending, now, None, None, 0)
  }

  /** The WHERE clause of LeaseWebhookOutboxEvent. */
  predicate Leasable(e: Event, now: Time) {
    Live(e) && e.scheduledAt <= now && (e.leaseUntil.None? || e.leaseUntil.value <= now)
  }

  function Leased(e: Event, token: nat, now: Time): (e': Event)
  {
    e.(status := Pending, token := Some(token), leaseUntil := Some(now + LEASE), attempts := e.attempts + 1)
  }

  /** UpdateWebhookOutboxSuccess and UpdateWebhookOutboxFailed on the row that has the token. */
  function Completed(e: Event, status: Status, scheduledAt: Time): (e': Event)
  {
    e.(status := status, scheduledAt := scheduledAt, token := None, leaseUntil := None)
  }

  /** A delivery's outcome; `retry` is what markFailed is called with. */
  datatype Outcome = Ok | Bad(retry: bool)

  function StatusAfter(c: Config, attempts: nat, o: Outcome): (s: Status)
  {
    match o
    case Ok => Success
    case Bad(retry) => if retry && attempts < c.maxAttempts then Failed else DeadLetter
  }

  /** markSuccess leaves scheduled_at alone; markFailed sets it to what the worker's clock showed, or
      later for a retry. */
  function ScheduleAfter(c: Config, e: Event, attempts: nat, o: Outcome, decidedAt: Time): (t: Time)
  {
    match o
    case Ok => e.scheduledAt
    case Bad(_) => decidedAt + if StatusAfter(c, attempts, o).Failed? && attempts >= 1 then Delay(c, attempts) else 0
  }

  /** What the redemption row is told: a retry shows as pending. */
  function ReportOf(s: Status): (r: Status)
  {
    if s.Failed? then Pending else s
  }

  /** The first write of a completion: it matches only while the job's token is on the row. */
  function WriteOutbox(c: Config, db: Tables, token: nat, j: Job, o: Outcome, decidedAt: Time): (db': Tables)
  {
    if j.event in db.outbox && db.outbox[j.event].token == Some(token) then
      var e := db.outbox[j.event];
      var status, at := StatusAfter(c, j.attempts, o), ScheduleAfter(c, e, j.attempts, o, decidedAt);
      db.(outbox := db.outbox[j.event := Completed(e, status, at)])
    else db
  }

  /** The second write: UpdateRedemptionWebhookStatus matches only the redemption's current event. */
  function WriteHook(db: Tables, j: Job, status: Status): (db': Tables)
  {
    if j.redemption in db.hooks && db.hooks[j.redemption].event == Some(j.event) then
      var h := db.hooks[j.redemption];
      db.(hooks := db.hooks[j.redemption := h.(status := status, attempts := h.attempts + 1)])
    else db
  }

  /** PrepareRedemptionWebhookResend's guard. */
  predicate Resendable(h: Hook) {
    h.success && (h.status.Success? || h.status.Failed? || h.status.DeadLetter?)
  }

  function Resent(db: Tables, r: nat, event: nat, now: Time): (db': Tables)
    requires r in db.hooks
  {
    Tables(db.outbox[event := NewEvent(r, now)], db.hooks[r := db.hooks[r].(status := Pending, event := Some(event))])
  }

  // ----- Steps -----

  datatype Action =
    | Redeem(redemption: nat, success: bool, webhook: bool)    // a redemption commits
    | Lease(event: nat)
    | Complete(token: nat, outcome: Outcome, decidedAt: Time)  // the outbox write
    | Report(token: nat)                                       // the redemption write
    | Lose(token: nat)                                         // a crash, or a refused write
    | Resend(redemption: nat)
    | Tick(later: Time)

  /** SKIP LOCKED makes any leasable row the one a worker may get. */
  predicate Enabled(s: State, a: Action) {
    match a
    case Redeem(r, success, webhook) => r !in s.db.hooks && (webhook ==> success)
    case Lease(e) => e in s.db.outbox && Leasable(s.db.outbox[e], s.now)
    case Complete(t, _, _) => t in s.jobs && s.jobs[t].phase.Delivering?
    case Report(t) => t in s.jobs && s.jobs[t].phase.Reporting?
    case Lose(t) => t in s.jobs
    case Resend(r) => r in s.db.hooks
    case Tick(later) => s.now <= later
  }

  /** The completion's outbox write hits its row. */
  predicate Hits(s: State, token: nat) {
    && token in s.jobs && s.jobs[token].event in s.db.outbox
    && s.db.outbox[s.jobs[token].event].token == Some(token)
  }

  function Next(c: Config, s: State, a: Action): (s': State)
    requires Enabled(s, a)
  {
    match a
    case Redeem(r, success, webhook) =>
      if webhook
      then s.(db := Tables(s.db.outbox[s.nextEvent := NewEvent(r, s.now)],
                           s.db.hooks[r := Hook(true, Pending, Some(s.nextEvent), 0)]),
              nextEvent := s.nextEvent + 1)
      else s.(db := s.db.(hooks := s.db.hooks[r := Hook(success, Unused, None, 0)]))
    case Lease(e) =>
      var row := Leased(s.db.outbox[e], s.nextToken, s.now);
      s.(db := s.db.(outbox := s.db.outbox[e := row]),
         jobs := s.jobs[s.nextToken := Job(e, row.redemption, row.attempts, s.now + LEASE, Delivering)],
         nextToken := s.nextToken + 1)
    case Complete(t, o, decidedAt) =>
      var j := s.jobs[t];
      if Hits(s, t)
      then s.(db := WriteOutbox(c, s.db, t, j, o, decidedAt),
              jobs := s.jobs[t := j.(phase := Reporting(ReportOf(StatusAfter(c, j.attempts, o))))])
      else s.(jobs := s.jobs - {t})
    case Report(t) =>
      s.(db := WriteHook(s.db, s.jobs[t], s.jobs[t].phase.status), jobs := s.jobs - {t})
    case Lose(t) => s.(jobs := s.jobs - {t})
    case Resend(r) =>
      if Resendable(s.db.hooks[r])
      then s.(db := Resent(s.db, r, s.nextEvent, s.now), nextEvent := s.nextEvent + 1)
      else s
    case Tick(later) => s.(now := later)
  }

  ghost predicate StepAt(c: Config, states: seq<State>, actions: seq<Action>, i: nat)
    requires i < |actions| < |states|
  {
    Enabled(states[i], actions[i]) && states[i + 1] == Next(c, states[i], actions[i])
  }

  ghost predicate IsRun(c: Config, states: seq<State>, actions: seq<Action>) {
    && |states| == |actions| + 1
    && states[0] == INITIAL
    && forall i :: 0 <= i < |actions| ==> StepAt(c, states, actions, i)
  }
}

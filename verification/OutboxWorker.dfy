/** One worker's polling loop, processBatch, with the statements it runs (internal/webhook/worker.go). */
module OutboxWorker {
  import opened Base
  import opened Floats
  import opened Backoff
  import opened OutboxProtocol

  // ----- The row that a lease takes -----

  /** ORDER BY scheduled_at ASC, id ASC. */
  predicate Before(outbox: map<nat, Event>, e: nat, f: nat)
    requires e in outbox && f in outbox
  {
    outbox[e].scheduledAt < outbox[f].scheduledAt || (outbox[e].scheduledAt == outbox[f].scheduledAt && e < f)
  }

  function LeasableSet(outbox: map<nat, Event>, now: Time): (s: set<nat>)
  {
    set e | e in outbox && Leasable(outbox[e], now)
  }

  predicate IsFirst(outbox: map<nat, Event>, s: set<nat>, e: nat)
    requires s <= outbox.Keys
  {
    e in s && forall f :: f in s ==> e == f || Before(outbox, e, f)
  }

  lemma {:induction false} FirstExists(outbox: map<nat, Event>, s: set<nat>)
    requires s <= outbox.Keys && s != {}
    ensures exists e :: IsFirst(outbox, s, e)
  {
    var y :| y in s;
    if s == {y} {
      assert IsFirst(outbox, s, y);
    } else {
      var rest := s - {y};
      FirstExists(outbox, rest);
      var m :| IsFirst(outbox, rest, m);
      assert s == rest + {y};
      assert IsFirst(outbox, s, if Before(outbox, y, m) then y else m);
    }
  }

  /** LeaseWebhookOutboxEvent's subquery, when no row is locked by another worker. */
  function FirstLeasable(outbox: map<nat, Event>, now: Time): (e: Option<nat>)
    ensures e.None? <==> LeasableSet(outbox, now) == {}
    ensures e.Some? ==> IsFirst(outbox, LeasableSet(outbox, now), e.value)
  {
    var s := LeasableSet(outbox, now);
    if s == {} then None
    else
      FirstExists(outbox, s);
      var e :| IsFirst(outbox, s, e);
      Some(e)
  }

  // ----- One turn of the loop -----

  /** The clock at the lease and at the completion, and how the delivery went. */
  datatype Turn = Turn(leaseAt: Time, doneAt: Time, outcome: Outcome)

  function JobFor(e: nat, row: Event): (j: Job)
  {
    Job(e, row.redemption, row.attempts, if row.leaseUntil.Some? then row.leaseUntil.value else 0, Delivering)
  }

  /** Both writes of a completion, one after the other. */
  function CompleteBoth(c: Config, db: Tables, token: nat, j: Job, o: Outcome, now: Time): (db': Tables)
  {
    if j.event in db.outbox && db.outbox[j.event].token == Some(token)
    then WriteHook(WriteOutbox(c, db, token, j, o, now), j, ReportOf(StatusAfter(c, j.attempts, o)))
    else db
  }

  function LeaseTable(db: Tables, e: nat, token: nat, now: Time): (db': Tables)
    requires e in db.outbox
  {
    db.(outbox := db.outbox[e := Leased(db.outbox[e], token, now)])
  }

  function OneTurn(c: Config, db: Tables, e: nat, t: Turn, token: nat): (db': Tables)
    requires e in db.outbox
  {
    var leased := LeaseTable(db, e, token, t.leaseAt);
    CompleteBoth(c, leased, token, JobFor(e, leased.outbox[e]), t.outcome, t.doneAt)
  }

  /** A turn takes the first row that can be leased; there may be none. */
  function NextTurn(c: Config, r: (Tables, seq<nat>), t: Turn, token: nat): (r': (Tables, seq<nat>))
  {
    var e := FirstLeasable(r.0.outbox, t.leaseAt);
    if e.None? then r else (OneTurn(c, r.0, e.value, t, token), r.1 + [e.value])
  }

  /** The tables after n turns, and the events leased in them. */
  function Turns(c: Config, db: Tables, turns: seq<Turn>, token: nat, n: nat): (r: (Tables, seq<nat>))
    requires n <= |turns|
  {
    if n == 0 then (db, []) else NextTurn(c, Turns(c, db, turns, token, n - 1), turns[n - 1], token + n - 1)
  }

  // ----- The worker -----

  /** A row that a worker may lease. */
  predicate IsDue(row: Event, now: Time) {
    && (row.status == Pending || row.status == Failed)
    && row.scheduledAt <= now && (row.leaseUntil.None? || row.leaseUntil.value <= now)
  }

  /** The event's row has the token. */
  predicate Holds(db: Tables, j: Job, token: nat) { j.event in db.outbox && db.outbox[j.event].token == Some(token) }

  /** The redemption of a job is told a status, once more, if the job's event is its current one. */
  function HooksTold(db: Tables, j: Job, status: Status): (hooks: map<nat, Hook>)
  {
    if j.redemption in db.hooks && db.hooks[j.redemption].event == Some(j.event)
    then db.hooks[j.redemption :=
           db.hooks[j.redemption].(status := status, attempts := db.hooks[j.redemption].attempts + 1)]
    else db.hooks
  }

  class Worker {
    var db: Tables
    var nextToken: nat
    const config: Config

    constructor (config: Config, db: Tables)
      ensures this.config == config && this.db == db && nextToken == 0
    {
      this.config := config;
      this.db := db;
      nextToken := 0;
    }

    /** leaseEvent. */
    method LeaseEvent(now: Time) returns (e: Option<nat>, token: nat)
      modifies this
      ensures e == FirstLeasable(old(db).outbox, now)
      ensures e.Some? ==>
                && e.value in old(db).outbox
                && var row := old(db).outbox[e.value];
                && IsDue(row, now)
                && (forall f :: f in old(db).outbox && IsDue(old(db).outbox[f], now) && f != e.value ==>
                      var other := old(db).outbox[f];
                      row.scheduledAt < other.scheduledAt || (row.scheduledAt == other.scheduledAt && e.value < f))
                && db.outbox == old(db).outbox[e.value := row.(
                     status := Pending, token := Some(token), leaseUntil := Some(now + 120 * 1_000_000_000),
                     attempts := row.attempts + 1)]
                && db.hooks == old(db).hooks
      ensures e.None? ==> forall f :: f in old(db).outbox ==> !IsDue(old(db).outbox[f], now)
      ensures e.None? ==> db == old(db) && nextToken == old(nextToken)
      ensures e.Some? ==>
                && token == old(nextToken) && nextToken == token + 1
                && db == LeaseTable(old(db), e.value, token, now)
    {
      token := nextToken;
      e := FirstLeasable(db.outbox, now);
      assert forall f :: f in db.outbox && IsDue(db.outbox[f], now) <==> f in LeasableSet(db.outbox, now);
      if e.Some? {
        nextToken := nextToken + 1;
        db := db.(outbox := db.outbox[e.value := Leased(db.outbox[e.value], token, now)]);
      }
    }

    /** UpdateRedemptionWebhookStatus. */
    method UpdateHook(j: Job, status: Status) returns (affected: nat)
      modifies this`db
      ensures db == WriteHook(old(db), j, status)
      ensures affected == 1 <==> j.redemption in db.hooks && db.hooks[j.redemption].event == Some(j.event)
    {
      affected := 0;
      if j.redemption in db.hooks && db.hooks[j.redemption].event == Some(j.event) {
        var h := db.hooks[j.redemption];
        db := db.(hooks := db.hooks[j.redemption := h.(status := status, attempts := h.attempts + 1)]);
        affected := 1;
      }
    }

    /** UpdateWebhookOutboxSuccess and UpdateWebhookOutboxFailed. */
    method UpdateOutbox(j: Job, token: nat, status: Status, scheduledAt: Option<Time>) returns (affected: nat)
      modifies this`db
      ensures var hit := j.event in old(db).outbox && old(db).outbox[j.event].token == Some(token);
              && affected == (if hit then 1 else 0)
              && db == if hit
                       then var e := old(db).outbox[j.event];
                            var at := if scheduledAt.Some? then scheduledAt.value else e.scheduledAt;
                            old(db).(outbox := old(db).outbox[j.event := Completed(e, status, at)])
                       else old(db)
    {
      affected := 0;
      if j.event in db.outbox && db.outbox[j.event].token == Some(token) {
        var e := db.outbox[j.event];
        var at := if scheduledAt.Some? then scheduledAt.value else e.scheduledAt;
        e := e.(status := status, scheduledAt := at, token := None, leaseUntil := None);
        db := db.(outbox := db.outbox[j.event := e]);
        affected := 1;
      }
    }

    method MarkSuccess(j: Job, token: nat, now: Time)
      modifies this`db
      ensures db == CompleteBoth(config, old(db), token, j, Ok, now)
      ensures if Holds(old(db), j, token)
              then && db.outbox == old(db).outbox[j.event :=
                        old(db).outbox[j.event].(status := Success, token := None, leaseUntil := None)]
                   && db.hooks == HooksTold(old(db), j, Success)
              else db == old(db)
    {
      var affected := UpdateOutbox(j, token, Success, None);
      if affected != 1 {
        return;
      }
      affected := UpdateHook(j, Success);
    }

    method MarkFailed(j: Job, token: nat, retry: bool, now: Time)
      requires j.attempts >= 1
      modifies this`db
      ensures db == CompleteBoth(config, old(db), token, j, Bad(retry), now)
      ensures if Holds(old(db), j, token) then
                var again := retry && j.attempts < config.maxAttempts;
                && db.outbox == old(db).outbox[j.event :=
                     old(db).outbox[j.event].(
                       status := if again then Failed else DeadLetter,
                       scheduledAt := if again then now + Delay(config, j.attempts) else now,
                       token := None, leaseUntil := None)]
                && db.hooks == HooksTold(old(db), j, if again then Pending else DeadLetter)
              else db == old(db)
    {
      var status := Failed;
      var scheduledAt := now;
      if retry && j.attempts < config.maxAttempts {
        var delay := ToDuration(Product(config, j.attempts));
        if delay > config.maxDelay {
          delay := config.maxDelay;
        }
        scheduledAt := now + delay;
      } else {
        status := DeadLetter;
      }
      var affected := UpdateOutbox(j, token, status, Some(scheduledAt));
      if affected != 1 {
        return;
      }
      var redemptionStatus := status;
      if status == Failed {
        redemptionStatus := Pending;
      }
      affected := UpdateHook(j, redemptionStatus);
    }

    /** leaseEvent, then deliverEvent down to its markSuccess or markFailed. */
    method TakeTurn(turn: Turn, log: seq<nat>, ghost bound: nat) returns (log': seq<nat>)
      requires forall e :: e in db.outbox ==> e < bound
      modifies this
      ensures (db, log') == NextTurn(config, (old(db), log), turn, old(nextToken))
      ensures log' == log <==> FirstLeasable(old(db).outbox, turn.leaseAt).None?
      ensures log' == log ==> db == old(db)
      ensures log' != log ==>
                && |log'| == |log| + 1 && nextToken == old(nextToken) + 1 && db.outbox.Keys == old(db).outbox.Keys
                && Weight(config, db.outbox, bound) < Weight(config, old(db).outbox, bound)
    {
      var e, token := LeaseEvent(turn.leaseAt);
      if e.None? {
        return log;
      }
      var j := JobFor(e.value, db.outbox[e.value]);
      match turn.outcome {
        case Ok => MarkSuccess(j, token, turn.doneAt);
        case Bad(retry) => MarkFailed(j, token, retry, turn.doneAt);
      }
      TurnWeighsLess(config, old(db), e.value, turn, token, bound);
      log' := log + [e.value];
    }

    /** processBatch: lease and deliver until nothing is left to lease. Every turn's writes are
        accepted and no event is added meanwhile; then it ends, whatever the clock does. */
    method ProcessBatch(turns: seq<Turn>, ghost bound: nat) returns (log: seq<nat>)
      requires forall e :: e in db.outbox ==> e < bound
      requires Weight(config, db.outbox, bound) < |turns|
      modifies this
      ensures |log| <= Weight(config, old(db).outbox, bound)
      ensures (db, log) == Turns(config, old(db), turns, old(nextToken), |log|)
      ensures FirstLeasable(db.outbox, turns[|log|].leaseAt).None?
      ensures forall e :: e in db.outbox ==> !IsDue(db.outbox[e], turns[|log|].leaseAt)
    {
      log := [];
      ghost var start, first := db, nextToken;
      while true
        invariant |log| + Weight(config, db.outbox, bound) <= Weight(config, start.outbox, bound)
        invariant (db, log) == Turns(config, start, turns, first, |log|)
        invariant nextToken == first + |log|
        invariant db.outbox.Keys == start.outbox.Keys
        decreases Weight(config, db.outbox, bound)
      {
        var more := TakeTurn(turns[|log|], log, bound);
        if more == log {
          NothingIsDue(db.outbox, turns[|log|].leaseAt);
          return;
        }
        log := more;
      }
    }
  }

  // ----- Why it ends -----

  lemma NothingIsDue(outbox: map<nat, Event>, now: Time)
    requires FirstLeasable(outbox, now).None?
    ensures forall e :: e in outbox ==> !IsDue(outbox[e], now)
  {
    assert forall e :: e in outbox && IsDue(outbox[e], now) ==> e in LeasableSet(outbox, now);
  }

  /** What a row can still cost: one turn, and one more for each attempt it has left. */
  function RowWeight(c: Config, e: Event): (w: nat)
  {
    if !Live(e) then 0 else 1 + if c.maxAttempts > e.attempts then c.maxAttempts - e.attempts else 0
  }

  function Weight(c: Config, outbox: map<nat, Event>, n: nat): (w: nat)
  {
    if n == 0 then 0 else Weight(c, outbox, n - 1) + if n - 1 in outbox then RowWeight(c, outbox[n - 1]) else 0
  }

  lemma {:induction false} WeightOfUpdate(c: Config, outbox: map<nat, Event>, e: nat, row: Event, n: nat)
    requires e in outbox
    ensures e >= n ==> Weight(c, outbox[e := row], n) == Weight(c, outbox, n)
    ensures e < n ==>
              Weight(c, outbox[e := row], n) == Weight(c, outbox, n) - RowWeight(c, outbox[e]) + RowWeight(c, row)
  {
    if n > 0 {
      WeightOfUpdate(c, outbox, e, row, n - 1);
    }
  }

  /** The row that a turn leaves behind, and that it leaves the others alone. */
  function TurnRow(c: Config, row: Event, t: Turn, token: nat): (row': Event)
  {
    var leased := Leased(row, token, t.leaseAt);
    Completed(leased, StatusAfter(c, leased.attempts, t.outcome),
              ScheduleAfter(c, leased, leased.attempts, t.outcome, t.doneAt))
  }

  lemma TurnChangesOneRow(c: Config, db: Tables, e: nat, t: Turn, token: nat)
    requires e in db.outbox
    ensures OneTurn(c, db, e, t, token).outbox == db.outbox[e := TurnRow(c, db.outbox[e], t, token)]
  {
    var leased := LeaseTable(db, e, token, t.leaseAt);
    assert leased.outbox[e].token == Some(token);
    var written := WriteOutbox(c, leased, token, JobFor(e, leased.outbox[e]), t.outcome, t.doneAt);
    assert written.outbox == db.outbox[e := TurnRow(c, db.outbox[e], t, token)];
  }

  lemma TurnWeighsLess(c: Config, db: Tables, e: nat, t: Turn, token: nat, n: nat)
    requires e in db.outbox && Live(db.outbox[e]) && e < n
    ensures OneTurn(c, db, e, t, token).outbox.Keys == db.outbox.Keys
    ensures Weight(c, OneTurn(c, db, e, t, token).outbox, n) < Weight(c, db.outbox, n)
  {
    TurnChangesOneRow(c, db, e, t, token);
    WeightOfUpdate(c, db.outbox, e, TurnRow(c, db.outbox[e], t, token), n);
  }

  /** A turn is a lease, a completion and a report of the protocol, with nobody in between. */
  lemma TurnIsThreeSteps(c: Config, s: State, e: nat, t: Turn)
    requires e in s.db.outbox && Leasable(s.db.outbox[e], s.now) && t.leaseAt == s.now
    ensures var s1 := Next(c, s, Lease(e));
            && Enabled(s1, Complete(s.nextToken, t.outcome, t.doneAt))
            && var s2 := Next(c, s1, Complete(s.nextToken, t.outcome, t.doneAt));
            && Enabled(s2, Report(s.nextToken))
            && Next(c, s2, Report(s.nextToken)).db == OneTurn(c, s.db, e, t, s.nextToken)
  {
    var s1 := Next(c, s, Lease(e));
    assert s1.jobs[s.nextToken] == JobFor(e, s1.db.outbox[e]);
    assert s1.db == LeaseTable(s.db, e, s.nextToken, s.now);
  }

  // ----- What it does while the clock stands still -----

  /** Every retry lies in the future. */
  ghost predicate PositiveDelays(c: Config) {
    forall a :: 1 <= a < c.maxAttempts ==> Delay(c, a) > 0
  }

  ghost predicate StandsStill(turns: seq<Turn>, now: Time) {
    forall k :: 0 <= k < |turns| ==> turns[k].leaseAt == now && turns[k].doneAt == now
  }

  lemma TurnEndsLease(c: Config, row: Event, t: Turn, token: nat, now: Time)
    requires PositiveDelays(c) && t.leaseAt == now && t.doneAt == now
    ensures !Leasable(TurnRow(c, row, t, token), now)
  {
  }

  ghost predicate WasLeasable(outbox: map<nat, Event>, now: Time, e: nat) { e in outbox && Leasable(outbox[e], now) }

  /** After some turns: the leased rows can no longer be leased, the others are untouched. */
  ghost predicate Progressed(start: map<nat, Event>, now: Time, outbox: map<nat, Event>, log: seq<nat>) {
    && outbox.Keys == start.Keys
    && (forall e :: e in log ==> WasLeasable(start, now, e) && !Leasable(outbox[e], now))
    && (forall e :: e in start && e !in log ==> outbox[e] == start[e])
    && Ordered(start, log)
  }

  ghost predicate Ordered(start: map<nat, Event>, log: seq<nat>) {
    forall i, j :: 0 <= i < j < |log| ==> log[i] in start && log[j] in start && Before(start, log[i], log[j])
  }

  /** What is leasable now is what was leasable at the start, less what has been leased; and every
      row already leased comes before it. */
  lemma NextComesLater(start: map<nat, Event>, now: Time, outbox: map<nat, Event>, log: seq<nat>, e: nat)
    requires Progressed(start, now, outbox, log)
    ensures WasLeasable(outbox, now, e) <==> WasLeasable(start, now, e) && e !in log
  {
  }

  ghost predicate Underway(start: map<nat, Event>, now: Time, r: (Tables, seq<nat>)) {
    Progressed(start, now, r.0.outbox, r.1) && FirstsCome(start, now, r.1)
  }

  lemma {:induction false} TurnsProgress(c: Config, db: Tables, turns: seq<Turn>, token: nat, now: Time, n: nat)
    requires n <= |turns| && PositiveDelays(c) && StandsStill(turns, now)
    ensures Underway(db.outbox, now, Turns(c, db, turns, token, n))
  {
    if n == 0 {
      NothingLeasedYet(db, now);
    } else {
      TurnsProgress(c, db, turns, token, now, n - 1);
      NextTurnProgress(c, db.outbox, now, Turns(c, db, turns, token, n - 1), turns[n - 1], token + n - 1);
      TurnsUnfold(c, db, turns, token, n);
    }
  }

  lemma TurnsUnfold(c: Config, db: Tables, turns: seq<Turn>, token: nat, n: nat)
    requires 0 < n <= |turns|
    ensures Turns(c, db, turns, token, n) == NextTurn(c, Turns(c, db, turns, token, n - 1), turns[n - 1], token + n - 1)
  {
  }

  lemma NothingLeasedYet(db: Tables, now: Time)
    ensures Underway(db.outbox, now, (db, []))
  {
  }

  lemma NextTurnProgress(c: Config, start: map<nat, Event>, now: Time, r: (Tables, seq<nat>), t: Turn, token: nat)
    requires PositiveDelays(c) && t.leaseAt == now && t.doneAt == now && Underway(start, now, r)
    ensures Underway(start, now, NextTurn(c, r, t, token))
  {
    var e := FirstLeasable(r.0.outbox, now);
    if e.Some? {
      TurnProgress(c, start, now, r.0, r.1, e.value, t, token);
    }
  }

  /** Whatever is leasable at the start and not leased yet comes after everything leased. */
  ghost predicate FirstsCome(start: map<nat, Event>, now: Time, log: seq<nat>) {
    forall i, f :: 0 <= i < |log| && WasLeasable(start, now, f) && f !in log ==>
      log[i] in start && Before(start, log[i], f)
  }

  lemma TurnProgress(c: Config, start: map<nat, Event>, now: Time, db: Tables, log: seq<nat>, e: nat, t: Turn,
                     token: nat)
    requires PositiveDelays(c) && t.leaseAt == now && t.doneAt == now
    requires Progressed(start, now, db.outbox, log) && FirstsCome(start, now, log)
    requires IsFirst(db.outbox, LeasableSet(db.outbox, now), e)
    ensures Progressed(start, now, OneTurn(c, db, e, t, token).outbox, log + [e])
    ensures FirstsCome(start, now, log + [e])
  {
    TurnChangesOneRow(c, db, e, t, token);
    TurnEndsLease(c, db.outbox[e], t, token, now);
    NextComesLater(start, now, db.outbox, log, e);
    assert forall f :: WasLeasable(db.outbox, now, f) <==> f in LeasableSet(db.outbox, now);
    forall f | WasLeasable(start, now, f) && f !in log + [e] ensures Before(start, e, f) {
      NextComesLater(start, now, db.outbox, log, f);
      assert db.outbox[e] == start[e] && db.outbox[f] == start[f];
    }
    assert forall i :: 0 <= i < |log| ==> log[i] in log;
  }

  /** With the clock held still, turns that end with nothing to lease have leased every row that
      could be leased, each exactly once, in (scheduled_at, id) order. */
  lemma StillClockLeasesEachOnce(c: Config, db: Tables, turns: seq<Turn>, token: nat, now: Time, n: nat)
    requires n <= |turns| && PositiveDelays(c) && StandsStill(turns, now)
    requires FirstLeasable(Turns(c, db, turns, token, n).0.outbox, now).None?
    ensures var log := Turns(c, db, turns, token, n).1;
            && (forall e :: e in log <==> e in db.outbox && IsDue(db.outbox[e], now))
            && forall i, j :: 0 <= i < j < |log| ==>
                 && log[i] != log[j]
                 && var a, b := db.outbox[log[i]], db.outbox[log[j]];
                 a.scheduledAt < b.scheduledAt || (a.scheduledAt == b.scheduledAt && log[i] < log[j])
  {
    var log := Turns(c, db, turns, token, n).1;
    TurnsProgress(c, db, turns, token, now, n);
    UnderwayToTheEnd(db.outbox, now, Turns(c, db, turns, token, n));
    assert forall e :: WasLeasable(db.outbox, now, e) <==> e in db.outbox && IsDue(db.outbox[e], now);
    LogIsOrdered(db.outbox, log);
  }

  lemma LogIsOrdered(start: map<nat, Event>, log: seq<nat>)
    requires Ordered(start, log) && forall e :: e in log ==> e in start
    ensures forall i, j :: 0 <= i < j < |log| ==>
              && log[i] != log[j]
              && var a, b := start[log[i]], start[log[j]];
              a.scheduledAt < b.scheduledAt || (a.scheduledAt == b.scheduledAt && log[i] < log[j])
  {
    forall i, j | 0 <= i < j < |log|
      ensures log[i] != log[j]
      ensures var a, b := start[log[i]], start[log[j]];
              a.scheduledAt < b.scheduledAt || (a.scheduledAt == b.scheduledAt && log[i] < log[j])
    {
      assert Before(start, log[i], log[j]);
    }
  }

  lemma UnderwayToTheEnd(start: map<nat, Event>, now: Time, r: (Tables, seq<nat>))
    requires Underway(start, now, r) && FirstLeasable(r.0.outbox, now).None?
    ensures Ordered(start, r.1) && forall e :: e in r.1 <==> WasLeasable(start, now, e)
  {
    forall e ensures e in r.1 <==> WasLeasable(start, now, e) {
      NextComesLater(start, now, r.0.outbox, r.1, e);
      assert WasLeasable(r.0.outbox, now, e) <==> e in LeasableSet(r.0.outbox, now);
    }
  }

  /** Which configurations have only positive delays: those with a positive first delay and a last
      product that fits, and those that never retry. */
  lemma DelaysArePositive(c: Config)
    requires WellFormed(c)
    ensures PositiveDelays(c)
       <==> c.maxAttempts <= 1 || (c.initialDelay > 0 && Fits(Product(c, c.maxAttempts - 1)))
  {
    var last := c.maxAttempts - 1;
    if last >= 1 {
      assert PositiveDelays(c) ==> Delay(c, last) > 0;
      if Fits(Product(c, last)) {
        forall a | 1 <= a <= last ensures Delay(c, a) > 0 <==> c.initialDelay > 0 {
          DelayIsPositive(c, a, last);
        }
      }
    }
  }

  lemma DelayIsPositive(c: Config, a: int, last: int)
    requires WellFormed(c) && 1 <= a <= last && Fits(Product(c, last))
    ensures Delay(c, a) > 0 <==> c.initialDelay > 0
  {
    ProductGrows(c, a, last);
    ProductIsPositive(c, a);
  }

  lemma ProductIsPositive(c: Config, attempts: int)
    requires WellFormed(c) && attempts >= 1 && Product(c, attempts).Finite?
    ensures Product(c, attempts).value > 0 <==> c.initialDelay > 0
  {
    PowGrows(c.factor, 0, attempts - 1);
    FiniteProduct(c, attempts);
    RoundIsExact(1);
    RoundIsExact(0);
    if c.initialDelay > 0 {
      RoundGrows(1, c.initialDelay);
      RoundGrows(1, Pow(c.factor, attempts - 1));
      Scaled(Round(c.initialDelay), 1, Round(Pow(c.factor, attempts - 1)));
      RoundGrows(1, Round(c.initialDelay) * Round(Pow(c.factor, attempts - 1)));
    }
  }
}

/** The sliding-window rate limiter of one key (internal/ratelimit/ratelimit.go): a Redis sorted set
    that is pruned, refilled and given a time to live by one script. Scores and the window come from
    the caller's clock, the time to live runs on Redis's own. Times are milliseconds. */
module RateLimiter {
  import opened Base

  /** A sorted set with its expiry. A key without members does not exist in Redis. */
  datatype ZSet = ZSet(members: map<string, real>, expireAt: Option<int>)

  const NO_KEY: ZSet := ZSet(map[], None)

  /** One run of the script: the caller's clock, Redis's clock, the ceiling, and the member and score
      of each unit. The scores are now + i/1000000 as a float64 rounds them. */
  datatype Call = Call(now: int, redisNow: int, maxRequests: int, entries: seq<Entry>)

  datatype Entry = Entry(member: string, score: real)

  predicate WellFormed(c: Call) {
    && (forall i :: 0 <= i < |c.entries| ==> c.now as real <= c.entries[i].score <= (c.now + 1) as real)
    && (forall i, j :: 0 <= i < j < |c.entries| ==> c.entries[i].member != c.entries[j].member)
  }

  // ----- The script -----

  /** Redis drops a key once the clock is past its expiry. */
  predicate Expired(z: ZSet, redisNow: int) { z.expireAt.Some? && redisNow > z.expireAt.value }

  function Alive(z: ZSet, redisNow: int): (z': ZSet)
  {
    if Expired(z, redisNow) then NO_KEY else z
  }

  /** ZREMRANGEBYSCORE key -inf start. */
  function Prune(members: map<string, real>, start: int): (m: map<string, real>)
    ensures m.Keys <= members.Keys
  {
    map x | x in members && members[x] > start as real :: members[x]
  }

  function AfterPrune(z: ZSet, now: int, redisNow: int, window: int): (z': ZSet)
  {
    var m := Prune(Alive(z, redisNow).members, now - window);
    ZSet(m, if m == map[] then None else Alive(z, redisNow).expireAt)
  }

  /** The ZADDs of the script's loop: the first n members with their scores. */
  function AddFirst(m: map<string, real>, c: Call, n: nat): (m': map<string, real>)
    requires n <= |c.entries|
  {
    if n == 0 then m else AddFirst(m, c, n - 1)[c.entries[n - 1].member := c.entries[n - 1].score]
  }

  predicate Admits(size: nat, c: Call) {
    1 <= |c.entries| <= c.maxRequests && size + |c.entries| <= c.maxRequests
  }

  function Script(z: ZSet, c: Call, window: int): (r: (ZSet, bool))
  {
    var z1 := AfterPrune(z, c.now, c.redisNow, window);
    if Admits(|z1.members|, c)
    then (ZSet(AddFirst(z1.members, c, |c.entries|), Some(c.redisNow + window)), true)
    else (z1, false)
  }

  lemma {:induction false} AddFirstHolds(m: map<string, real>, c: Call, n: nat, x: string)
    requires n <= |c.entries|
    ensures x in AddFirst(m, c, n) <==> x in m || exists i :: 0 <= i < n && c.entries[i].member == x
    ensures x in m && (forall i :: 0 <= i < n ==> c.entries[i].member != x) ==> AddFirst(m, c, n)[x] == m[x]
  {
    if n > 0 {
      AddFirstHolds(m, c, n - 1, x);
    }
  }

  lemma {:induction false} AddFirstScores(m: map<string, real>, c: Call, n: nat, i: nat)
    requires i < n <= |c.entries| && WellFormed(c)
    ensures c.entries[i].member in AddFirst(m, c, n) && AddFirst(m, c, n)[c.entries[i].member] == c.entries[i].score
  {
    if i < n - 1 {
      AddFirstScores(m, c, n - 1, i);
    }
  }

  /** What is left of the set when the script counts it: nothing of a key whose time is over, and of
      any other the units with a score above the window's start. */
  function Counted(z: ZSet, c: Call, window: int): (m: map<string, real>)
  {
    map x | && x in z.members && z.members[x] > (c.now - window) as real
            && (z.expireAt.None? || c.redisNow <= z.expireAt.value) :: z.members[x]
  }

  /** The script: it allows a call exactly when its units fit the ceiling beside those counted. Then it
      adds all of them and sets the expiry; otherwise it only leaves those counted. */
  lemma ScriptDoes(z: ZSet, c: Call, window: int, x: string)
    requires WellFormed(c)
    ensures var (z', allowed) := Script(z, c, window);
            && (allowed
                <==> 1 <= |c.entries| <= c.maxRequests && |Counted(z, c, window)| + |c.entries| <= c.maxRequests)
            && (!allowed ==> z'.members == Counted(z, c, window))
            && (allowed ==>
                  && z'.expireAt == Some(c.redisNow + window)
                  && (x in z'.members <==>
                        x in Counted(z, c, window) || exists i :: 0 <= i < |c.entries| && c.entries[i].member == x)
                  && (x in Counted(z, c, window) && (forall i :: 0 <= i < |c.entries| ==> c.entries[i].member != x) ==>
                        z'.members[x] == Counted(z, c, window)[x])
                  && forall i :: 0 <= i < |c.entries| ==>
                       c.entries[i].member in z'.members && z'.members[c.entries[i].member] == c.entries[i].score)
  {
    var m := AfterPrune(z, c.now, c.redisNow, window).members;
    assert m == Counted(z, c, window);
    AddFirstHolds(m, c, |c.entries|, x);
    forall i | 0 <= i < |c.entries|
      ensures c.entries[i].member in AddFirst(m, c, |c.entries|)
      ensures AddFirst(m, c, |c.entries|)[c.entries[i].member] == c.entries[i].score
    {
      AddFirstScores(m, c, |c.entries|, i);
    }
  }

  datatype Reply = Allowed | Limited | Invalid

  class Limiter {
    var members: map<string, real>
    var expireAt: Option<int>
    const window: int

    constructor (window: int)
      ensures this.window == window && State() == NO_KEY
    {
      this.window := window;
      members, expireAt := map[], None;
    }

    function State(): (z: ZSet)
      reads this
    {
      ZSet(members, expireAt)
    }

    /** Redis expires the key, then the script's ZREMRANGEBYSCORE. */
    method Sweep(now: int, redisNow: int)
      modifies this
      ensures State() == AfterPrune(old(State()), now, redisNow, window)
    {
      if expireAt.Some? && redisNow > expireAt.value {
        members, expireAt := map[], None;
      }
      members := Prune(members, now - window);
      if members == map[] {
        expireAt := None;
      }
    }

    /** allowN: the checks of its arguments, then the script. */
    method AllowN(c: Call) returns (r: Reply)
      modifies this
      ensures window <= 0 || |c.entries| == 0 || c.maxRequests <= 0 ==> r == Invalid && State() == old(State())
      ensures window > 0 && |c.entries| > 0 && c.maxRequests > 0 ==>
                (State(), r) == var (z, ok) := Script(old(State()), c, window); (z, if ok then Allowed else Limited)
    {
      if window <= 0 {
        return Invalid;
      }
      if |c.entries| == 0 {
        return Invalid;
      }
      if c.maxRequests <= 0 {
        return Invalid;
      }
      Sweep(c.now, c.redisNow);
      var requested := |c.entries|;
      if requested < 1 || requested > c.maxRequests {
        return Limited;
      }
      if |members| + requested > c.maxRequests {
        return Limited;
      }
      ghost var pruned := members;
      for i := 0 to requested
        invariant members == AddFirst(pruned, c, i)
      {
        members := members[c.entries[i].member := c.entries[i].score];
      }
      expireAt := Some(c.redisNow + window);
      return Allowed;
    }
  }

  // ----- The limiter it stands for: the full log of admitted units -----

  /** A unit's score, and the clock when it was admitted. */
  datatype Unit = Unit(score: real, at: int)

  type Log = map<string, Unit>

  function Recent(log: Log, start: int): (s: set<string>)
  {
    set m | m in log && log[m].score > start as real
  }

  function LogFirst(log: Log, c: Call, n: nat): (log': Log)
    requires n <= |c.entries|
  {
    if n == 0 then log else LogFirst(log, c, n - 1)[c.entries[n - 1].member := Unit(c.entries[n - 1].score, c.now)]
  }

  /** Counts every unit ever admitted whose score lies above the window's start; forgets nothing. */
  function FullLimiter(log: Log, c: Call, window: int): (r: (Log, bool))
  {
    if Admits(|Recent(log, c.now - window)|, c) then (LogFirst(log, c, |c.entries|), true) else (log, false)
  }

  /** The full log allows a call exactly when its units fit the ceiling beside all units ever admitted
      with a score above the window's start. */
  lemma FullLimiterDoes(log: Log, c: Call, window: int)
    ensures FullLimiter(log, c, window).1
       <==> && 1 <= |c.entries| <= c.maxRequests
            && |set m | m in log && log[m].score > (c.now - window) as real| + |c.entries| <= c.maxRequests
    ensures !FullLimiter(log, c, window).1 ==> FullLimiter(log, c, window).0 == log
  {
    assert Recent(log, c.now - window) == set m | m in log && log[m].score > (c.now - window) as real;
  }

  // ----- They agree -----

  /** The set holds what the log says of m, less a unit that no later window can reach; and its key
      expires a window after the call that set the expiry, which no unit in the set is later than. */
  ghost predicate UnitOk(z: ZSet, log: Log, last: int, window: int, setter: Option<Call>, m: string) {
    && (m in z.members ==> m in log && log[m].score == z.members[m])
    && (m in log && m !in z.members ==> log[m].score <= (last - window) as real)
    && (m in z.members ==> z.expireAt.Some? && setter.Some? && z.members[m] <= (setter.value.now + 1) as real)
    && (m in log ==> log[m].at as real <= log[m].score <= (log[m].at + 1) as real && log[m].at <= last)
  }

  ghost predicate ExpiryOk(z: ZSet, window: int, setter: Option<Call>) {
    z.expireAt.Some? ==> setter.Some? && z.expireAt.value == setter.value.redisNow + window
  }

  ghost predicate Agree(z: ZSet, log: Log, last: int, window: int, setter: Option<Call>) {
    ExpiryOk(z, window, setter) && forall m :: UnitOk(z, log, last, window, setter, m)
  }

  lemma PrunedIsRecent(z: ZSet, log: Log, last: int, setter: Option<Call>, c: Call, window: int)
    requires Agree(z, log, last, window, setter) && last <= c.now && window > 0
    requires Expired(z, c.redisNow) ==> Recent(log, c.now - window) == {}
    ensures AfterPrune(z, c.now, c.redisNow, window).members.Keys == Recent(log, c.now - window)
    ensures Agree(AfterPrune(z, c.now, c.redisNow, window), log, c.now, window, setter)
  {
    var z' := AfterPrune(z, c.now, c.redisNow, window);
    forall m
      ensures m in z'.members <==> m in Recent(log, c.now - window)
      ensures UnitOk(z', log, c.now, window, setter, m)
    {
      assert UnitOk(z, log, last, window, setter, m);
      assert m in Recent(log, c.now - window) <==> m in log && log[m].score > (c.now - window) as real;
    }
  }

  lemma SameSize(m: map<string, real>)
    ensures |m| == |m.Keys|
  {
  }

  /** The members of a call's first n units. */
  function AskedFirst(c: Call, n: nat): (s: set<string>)
    requires n <= |c.entries|
  {
    if n == 0 then {} else AskedFirst(c, n - 1) + {c.entries[n - 1].member}
  }

  function Asked(c: Call): (s: set<string>)
  {
    AskedFirst(c, |c.entries|)
  }

  ghost predicate AllFresh(log: Log, c: Call) { Asked(c) !! log.Keys }

  /** The units of the first n places of a call. */
  lemma {:induction false} AddedUnits(m: map<string, real>, log: Log, c: Call, n: nat, x: string)
    requires n <= |c.entries|
    ensures x in AddFirst(m, c, n) <==> x in m || x in AskedFirst(c, n)
    ensures x in LogFirst(log, c, n) <==> x in log || x in AskedFirst(c, n)
    ensures x !in AskedFirst(c, n) && x in m ==> AddFirst(m, c, n)[x] == m[x]
    ensures x !in AskedFirst(c, n) && x in log ==> LogFirst(log, c, n)[x] == log[x]
    ensures x in AskedFirst(c, n) ==>
              LogFirst(log, c, n)[x].at == c.now && LogFirst(log, c, n)[x].score == AddFirst(m, c, n)[x]
    ensures x in AskedFirst(c, n) ==> exists i :: 0 <= i < n && AddFirst(m, c, n)[x] == c.entries[i].score
  {
    if n > 0 {
      AddedUnits(m, log, c, n - 1, x);
    }
  }

  lemma AdmissionAgrees(z: ZSet, log: Log, setter: Option<Call>, c: Call, window: int)
    requires Agree(z, log, c.now, window, setter) && (setter.Some? ==> setter.value.now <= c.now)
    requires WellFormed(c) && window > 0
    ensures var z' := ZSet(AddFirst(z.members, c, |c.entries|), Some(c.redisNow + window));
            Agree(z', LogFirst(log, c, |c.entries|), c.now, window, Some(c))
  {
    var n := |c.entries|;
    var z' := ZSet(AddFirst(z.members, c, n), Some(c.redisNow + window));
    var log' := LogFirst(log, c, n);
    forall x ensures UnitOk(z', log', c.now, window, Some(c), x) {
      AddedUnits(z.members, log, c, n, x);
      assert UnitOk(z, log, c.now, window, setter, x);
    }
  }

  /** One call that loses no unit: the same decision, and agreement afterwards. */
  lemma CallAgrees(z: ZSet, log: Log, last: int, setter: Option<Call>, c: Call, window: int)
    requires Agree(z, log, last, window, setter) && last <= c.now && WellFormed(c) && window > 0
    requires setter.Some? ==> setter.value.now <= c.now
    requires Expired(z, c.redisNow) ==> Recent(log, c.now - window) == {}
    ensures Script(z, c, window).1 == FullLimiter(log, c, window).1
    ensures Agree(Script(z, c, window).0, FullLimiter(log, c, window).0, c.now, window,
                  if FullLimiter(log, c, window).1 then Some(c) else setter)
  {
    PrunedIsRecent(z, log, last, setter, c, window);
    var z1 := AfterPrune(z, c.now, c.redisNow, window);
    SameSize(z1.members);
    if Admits(|z1.members|, c) {
      AdmissionAgrees(z1, log, setter, c, window);
    }
  }

  /** The first call that loses units may still be decided as the full log decides it: exactly when
      the key has not expired, or the units lost would not have made a difference. */
  lemma CallDecidesIff(z: ZSet, log: Log, last: int, setter: Option<Call>, c: Call, window: int)
    requires Agree(z, log, last, window, setter) && last <= c.now && window > 0
    ensures Script(z, c, window).1 == FullLimiter(log, c, window).1
       <==> !Expired(z, c.redisNow) || |c.entries| < 1 || |c.entries| > c.maxRequests
            || |Recent(log, c.now - window)| + |c.entries| <= c.maxRequests
  {
    if Expired(z, c.redisNow) {
      assert AfterPrune(z, c.now, c.redisNow, window).members == map[];
    } else {
      PrunedIsRecent(z, log, last, setter, c, window);
      SameSize(AfterPrune(z, c.now, c.redisNow, window).members);
    }
  }

  // ----- Whole runs -----

  function RunScript(calls: seq<Call>, window: int): (r: (ZSet, seq<bool>))
    ensures |r.1| == |calls|
  {
    if calls == [] then (NO_KEY, [])
    else
      var (z, ds) := RunScript(calls[..|calls| - 1], window);
      var (z', d) := Script(z, calls[|calls| - 1], window);
      (z', ds + [d])
  }

  function RunFull(calls: seq<Call>, window: int): (r: (Log, seq<bool>))
    ensures |r.1| == |calls|
  {
    if calls == [] then (map[], [])
    else
      var (log, ds) := RunFull(calls[..|calls| - 1], window);
      var (log', d) := FullLimiter(log, calls[|calls| - 1], window);
      (log', ds + [d])
  }

  /** Calls on one key: the callers' clocks do not go back. */
  ghost predicate Calls(calls: seq<Call>) {
    && (forall i :: 0 <= i < |calls| ==> WellFormed(calls[i]))
    && (forall i, j :: 0 <= i < j < |calls| ==> calls[i].now <= calls[j].now)
  }

  /** When Redis's clock has passed a window since the earlier call, the caller's clock has too. */
  predicate InTime(earlier: Call, c: Call, window: int) {
    c.redisNow > earlier.redisNow + window ==> c.now > earlier.now + window
  }

  /** Redis never sees a window pass between two calls that the callers do not see pass. */
  ghost predicate AllInTime(calls: seq<Call>, window: int) {
    forall i, j :: 0 <= i < j < |calls| ==> InTime(calls[i], calls[j], window)
  }

  /** It is so when Redis runs each script at most as late after the caller's reading of the clock as
      it ran the ones before, one clock for both and no delay being the plainest case. */
  lemma SteadyLagIsInTime(calls: seq<Call>, window: int)
    requires forall i, j :: 0 <= i < j < |calls| ==>
               calls[j].redisNow - calls[j].now <= calls[i].redisNow - calls[i].now
    ensures AllInTime(calls, window)
  {
  }

  function LastNow(calls: seq<Call>): (t: int)
  {
    if calls == [] then 0 else calls[|calls| - 1].now
  }

  /** The call that last set the expiry: the last one that was allowed. */
  function Setter(calls: seq<Call>, window: int): (c: Option<Call>)
  {
    if calls == [] then None
    else
      var front, last := calls[..|calls| - 1], calls[|calls| - 1];
      if FullLimiter(RunFull(front, window).0, last, window).1 then Some(last) else Setter(front, window)
  }

  lemma {:induction false} SetterIsCall(calls: seq<Call>, window: int)
    requires Setter(calls, window).Some?
    ensures exists i :: 0 <= i < |calls| && calls[i] == Setter(calls, window).value
  {
    var front, last := calls[..|calls| - 1], calls[|calls| - 1];
    if FullLimiter(RunFull(front, window).0, last, window).1 {
      assert calls[|calls| - 1] == last;
    } else {
      SetterIsCall(front, window);
    }
  }

  /** Call c finds the key expired, a window after the call that set its expiry, although the log
      still has a unit in c's window. */
  ghost predicate Loses(front: seq<Call>, c: Call, window: int) {
    var setter := Setter(front, window);
    && setter.Some? && c.redisNow > setter.value.redisNow + window
    && Recent(RunFull(front, window).0, c.now - window) != {}
  }

  ghost predicate LosesAt(calls: seq<Call>, k: nat, window: int)
    requires k < |calls|
  {
    Loses(calls[..k], calls[k], window)
  }

  ghost predicate NothingLost(calls: seq<Call>, window: int) {
    forall k :: 0 <= k < |calls| ==> !LosesAt(calls, k, window)
  }

  lemma FrontLosesNothing(calls: seq<Call>, window: int)
    requires NothingLost(calls, window) && calls != []
    ensures NothingLost(calls[..|calls| - 1], window) && !Loses(calls[..|calls| - 1], calls[|calls| - 1], window)
  {
    var front := calls[..|calls| - 1];
    assert calls[..|front|] == front && !LosesAt(calls, |front|, window);
    forall k | 0 <= k < |front| ensures !LosesAt(front, k, window) {
      assert front[..k] == calls[..k] && !LosesAt(calls, k, window);
    }
  }

  lemma SetterComesBefore(calls: seq<Call>, window: int)
    requires Calls(calls) && calls != [] && Setter(calls[..|calls| - 1], window).Some?
    ensures Setter(calls[..|calls| - 1], window).value.now <= calls[|calls| - 1].now
    ensures AllInTime(calls, window) ==>
              InTime(Setter(calls[..|calls| - 1], window).value, calls[|calls| - 1], window)
  {
    SetterIsCall(calls[..|calls| - 1], window);
  }

  /** The clock that the limiter had before a call. */
  function ClockBefore(front: seq<Call>, c: Call): (t: int)
  {
    if front == [] then c.now else LastNow(front)
  }

  /** For every sequence of calls that loses no unit, the pruned, expiring set decides exactly as the
      full log does. */
  lemma {:induction false} ScriptDecidesAsFullLog(calls: seq<Call>, window: int)
    requires Calls(calls) && NothingLost(calls, window) && window > 0
    ensures RunScript(calls, window).1 == RunFull(calls, window).1
    ensures Agree(RunScript(calls, window).0, RunFull(calls, window).0, LastNow(calls), window, Setter(calls, window))
  {
    if calls != [] {
      var front, c := calls[..|calls| - 1], calls[|calls| - 1];
      FrontLosesNothing(calls, window);
      ScriptDecidesAsFullLog(front, window);
      if Setter(front, window).Some? {
        SetterComesBefore(calls, window);
      }
      CallAgrees(RunScript(front, window).0, RunFull(front, window).0, ClockBefore(front, c), Setter(front, window),
                 c, window);
    }
  }

  /** The script counts exactly the units that the full log has in the call's window. */
  ghost predicate Sees(front: seq<Call>, c: Call, window: int) {
    AfterPrune(RunScript(front, window).0, c.now, c.redisNow, window).members.Keys
    == Recent(RunFull(front, window).0, c.now - window)
  }

  lemma SeesUnlessItLoses(calls: seq<Call>, k: nat, window: int)
    requires Calls(calls) && k < |calls| && NothingLost(calls[..k], window) && window > 0
    ensures Sees(calls[..k], calls[k], window) <==> !LosesAt(calls, k, window)
  {
    var front, c := calls[..k], calls[k];
    var z, log := RunScript(front, window).0, RunFull(front, window).0;
    ScriptDecidesAsFullLog(front, window);
    if Loses(front, c, window) {
      var m :| m in Recent(log, c.now - window);
      assert UnitOk(z, log, LastNow(front), window, Setter(front, window), m);
      assert m !in AfterPrune(z, c.now, c.redisNow, window).members;
    } else {
      PrunedIsRecent(z, log, ClockBefore(front, c), Setter(front, window), c, window);
    }
  }

  /** Over a whole run, exactly when every call sees its window: when no call loses a unit. */
  lemma {:induction false} EveryCallSeesIff(calls: seq<Call>, window: int)
    requires Calls(calls) && window > 0
    ensures NothingLost(calls, window) <==> forall k :: 0 <= k < |calls| ==> Sees(calls[..k], calls[k], window)
  {
    if NothingLost(calls, window) {
      forall k | 0 <= k < |calls| ensures Sees(calls[..k], calls[k], window) {
        PrefixLosesNothing(calls, k, window);
        SeesUnlessItLoses(calls, k, window);
      }
    } else {
      var k :| 0 <= k < |calls| && LosesAt(calls, k, window);
      var first := FirstLoss(calls, k, window);
      SeesUnlessItLoses(calls, first, window);
    }
  }

  lemma PrefixLosesNothing(calls: seq<Call>, k: nat, window: int)
    requires k <= |calls| && forall i :: 0 <= i < k ==> !LosesAt(calls, i, window)
    ensures NothingLost(calls[..k], window)
  {
    forall i | 0 <= i < k ensures !LosesAt(calls[..k], i, window) {
      assert calls[..k][..i] == calls[..i] && !LosesAt(calls, i, window);
    }
  }

  lemma {:induction false} FirstLoss(calls: seq<Call>, k: nat, window: int) returns (first: nat)
    requires k < |calls| && LosesAt(calls, k, window)
    ensures first < |calls| && NothingLost(calls[..first], window) && LosesAt(calls, first, window)
  {
    if i :| 0 <= i < k && LosesAt(calls, i, window) {
      first := FirstLoss(calls, i, window);
    } else {
      first := k;
      PrefixLosesNothing(calls, k, window);
    }
  }

  /** Calls in time lose nothing. */
  lemma {:induction false} InTimeLosesNothing(calls: seq<Call>, window: int)
    requires Calls(calls) && AllInTime(calls, window) && window > 0
    ensures NothingLost(calls, window)
  {
    if calls != [] {
      InTimeLosesNothing(calls[..|calls| - 1], window);
      LastLosesNothing(calls, window);
      OneMoreLosesNothing(calls, window);
    }
  }

  lemma OneMoreLosesNothing(calls: seq<Call>, window: int)
    requires calls != [] && NothingLost(calls[..|calls| - 1], window)
    requires !Loses(calls[..|calls| - 1], calls[|calls| - 1], window)
    ensures NothingLost(calls, window)
  {
    var front := calls[..|calls| - 1];
    assert calls[..|front|] == front;
    forall k | 0 <= k < |calls| ensures !LosesAt(calls, k, window) {
      if k < |front| {
        assert front[..k] == calls[..k] && !LosesAt(front, k, window);
      }
    }
  }

  lemma LastLosesNothing(calls: seq<Call>, window: int)
    requires Calls(calls) && AllInTime(calls, window) && window > 0 && calls != []
    requires NothingLost(calls[..|calls| - 1], window)
    ensures !Loses(calls[..|calls| - 1], calls[|calls| - 1], window)
  {
    var front, c := calls[..|calls| - 1], calls[|calls| - 1];
    var z, log, setter := RunScript(front, window).0, RunFull(front, window).0, Setter(front, window);
    ScriptDecidesAsFullLog(front, window);
    if setter.Some? && c.redisNow > setter.value.redisNow + window {
      SetterComesBefore(calls, window);
      forall m | m in log ensures log[m].score <= (c.now - window) as real {
        assert UnitOk(z, log, LastNow(front), window, setter, m);
      }
    }
  }

  // ----- The promise -----

  /** The clock value lies in (t - window, t]. */
  predicate InWindow(at: int, t: real, window: int) { t - window as real < at as real <= t }

  /** The units admitted in (t - window, t]. */
  ghost function Within(log: Log, t: real, window: int): (s: set<string>)
  {
    set m | m in log && InWindow(log[m].at, t, window)
  }

  /** AllowN admits all of its units or none: the set that remains after the sweep gains every
      member of an allowed call and no member of a denied one. */
  lemma AllOrNone(z: ZSet, c: Call, window: int)
    requires WellFormed(c)
    ensures var (z', ok) := Script(z, c, window);
            z'.members.Keys == AfterPrune(z, c.now, c.redisNow, window).members.Keys + (if ok then Asked(c) else {})
    ensures |Asked(c)| == |c.entries|
  {
    var m := AfterPrune(z, c.now, c.redisNow, window).members;
    forall x ensures x in AddFirst(m, c, |c.entries|) <==> x in m || x in Asked(c) {
      AddedUnits(m, map[], c, |c.entries|, x);
    }
    DistinctCount(c, |c.entries|);
  }

  lemma {:induction false} AskedHasPlace(c: Call, n: nat, x: string)
    requires n <= |c.entries| && x in AskedFirst(c, n)
    ensures exists i :: 0 <= i < n && c.entries[i].member == x
  {
    if x != c.entries[n - 1].member {
      AskedHasPlace(c, n - 1, x);
    }
  }

  lemma {:induction false} DistinctCount(c: Call, n: nat)
    requires n <= |c.entries| && WellFormed(c)
    ensures |AskedFirst(c, n)| == n
  {
    if n > 0 {
      DistinctCount(c, n - 1);
      var x := c.entries[n - 1].member;
      if x in AskedFirst(c, n - 1) {
        AskedHasPlace(c, n - 1, x);
      }
    }
  }

  /** What the runs keep of a log: no unit's score lies below its clock, no clock lies ahead. */
  ghost predicate Dated(log: Log, last: int) {
    forall m :: m in log ==> log[m].at as real <= log[m].score && log[m].at <= last
  }

  lemma WithinIsRecent(log: Log, now: int, window: int, t: real)
    requires Dated(log, now) && t >= now as real
    ensures Within(log, t, window) <= Recent(log, now - window)
  {
  }

  /** The windows after an admission: those that hold its clock gain its units, the others nothing. */
  lemma AdmissionAdds(log: Log, c: Call, window: int, t: real)
    requires WellFormed(c) && AllFresh(log, c)
    ensures Within(LogFirst(log, c, |c.entries|), t, window)
         == Within(log, t, window) + (if InWindow(c.now, t, window) then Asked(c) else {})
    ensures Within(log, t, window) !! Asked(c)
  {
    forall x ensures x in Within(LogFirst(log, c, |c.entries|), t, window)
              <==> x in Within(log, t, window) || (InWindow(c.now, t, window) && x in Asked(c))
    {
      AddedUnits(map[], log, c, |c.entries|, x);
    }
  }

  /** One admission keeps every window, at every instant t, within the limit. */
  lemma AdmissionIsBounded(log: Log, c: Call, window: int, limit: int, t: real)
    requires Dated(log, c.now) && WellFormed(c) && AllFresh(log, c) && c.maxRequests <= limit
    requires |Within(log, t, window)| <= limit
    ensures |Within(FullLimiter(log, c, window).0, t, window)| <= limit
  {
    AdmissionAdds(log, c, window, t);
    if FullLimiter(log, c, window).1 && InWindow(c.now, t, window) {
      AdmittedFits(log, c, window, limit, t);
    }
  }

  lemma AdmittedFits(log: Log, c: Call, window: int, limit: int, t: real)
    requires Dated(log, c.now) && WellFormed(c) && c.maxRequests <= limit && t >= c.now as real
    requires Admits(|Recent(log, c.now - window)|, c)
    ensures |Within(log, t, window) + Asked(c)| <= limit
  {
    WithinIsRecent(log, c.now, window, t);
    DistinctCount(c, |c.entries|);
    CoverSize(Within(log, t, window) + Asked(c), Recent(log, c.now - window), Asked(c));
  }

  /** The clock of every unit in a run's log. */
  lemma {:induction false} RunIsDated(calls: seq<Call>, window: int)
    requires Calls(calls)
    ensures Dated(RunFull(calls, window).0, LastNow(calls))
  {
    if calls != [] {
      var front, c := calls[..|calls| - 1], calls[|calls| - 1];
      RunIsDated(front, window);
      var log, n := RunFull(front, window).0, |c.entries|;
      forall m | m in LogFirst(log, c, n)
        ensures var u := LogFirst(log, c, n)[m]; u.at as real <= u.score && u.at <= c.now
      {
        AddedUnits(map[], log, c, n, m);
      }
    }
  }

  /** No member name is drawn twice. */
  ghost predicate FreshMembers(calls: seq<Call>) {
    forall i, j :: 0 <= i < j < |calls| ==> Asked(calls[i]) !! Asked(calls[j])
  }

  /** The units that the allowed calls of (t - window, t] asked for. */
  function UnitsWithin(calls: seq<Call>, allowed: seq<bool>, t: real, window: int): (n: nat)
    requires |calls| == |allowed|
  {
    if calls == [] then 0
    else
      var k := |calls| - 1;
      UnitsWithin(calls[..k], allowed[..k], t, window)
      + (if allowed[k] && InWindow(calls[k].now, t, window) then |calls[k].entries| else 0)
  }

  /** The log of the units that a list of decisions allows. */
  function LogOf(calls: seq<Call>, allowed: seq<bool>): (log: Log)
    requires |calls| == |allowed|
  {
    if calls == [] then map[]
    else
      var k := |calls| - 1;
      var log := LogOf(calls[..k], allowed[..k]);
      if allowed[k] then LogFirst(log, calls[k], |calls[k].entries|) else log
  }

  lemma {:induction false} FullLogIsLogOf(calls: seq<Call>, window: int)
    ensures RunFull(calls, window).0 == LogOf(calls, RunFull(calls, window).1)
  {
    if calls != [] {
      var k := |calls| - 1;
      FullLogIsLogOf(calls[..k], window);
      assert RunFull(calls, window).1[..k] == RunFull(calls[..k], window).1;
    }
  }

  /** A logged unit was asked for by some call. */
  lemma {:induction false} LoggedUnitsWereAsked(calls: seq<Call>, allowed: seq<bool>, x: string)
    requires |calls| == |allowed| && x in LogOf(calls, allowed)
    ensures exists i :: 0 <= i < |calls| && x in Asked(calls[i])
  {
    if calls != [] {
      var k := |calls| - 1;
      var log := LogOf(calls[..k], allowed[..k]);
      AddedUnits(map[], log, calls[k], |calls[k].entries|, x);
      if x in log {
        LoggedUnitsWereAsked(calls[..k], allowed[..k], x);
      } else {
        assert x in Asked(calls[k]);
      }
    }
  }

  lemma LastCallIsFresh(calls: seq<Call>, allowed: seq<bool>)
    requires FreshMembers(calls) && calls != [] && |allowed| == |calls| - 1
    ensures AllFresh(LogOf(calls[..|calls| - 1], allowed), calls[|calls| - 1])
  {
    var k := |calls| - 1;
    forall x | x in Asked(calls[k]) ensures x !in LogOf(calls[..k], allowed) {
      if x in LogOf(calls[..k], allowed) {
        LoggedUnitsWereAsked(calls[..k], allowed, x);
      }
    }
  }

  /** Over every run and at every instant t, the units logged for (t - window, t] stay within the
      limit, when no call names a higher ceiling. */
  lemma {:induction false} WindowsStayWithinLimit(calls: seq<Call>, window: int, limit: nat, t: real)
    requires Calls(calls) && FreshMembers(calls) && window > 0
    requires forall i :: 0 <= i < |calls| ==> calls[i].maxRequests <= limit
    ensures |Within(RunFull(calls, window).0, t, window)| <= limit
  {
    if calls == [] {
      assert Within(RunFull(calls, window).0, t, window) == {};
    } else {
      var front, c := calls[..|calls| - 1], calls[|calls| - 1];
      WindowsStayWithinLimit(front, window, limit, t);
      RunIsDated(front, window);
      FullLogIsLogOf(front, window);
      LastCallIsFresh(calls, RunFull(front, window).1);
      AdmissionIsBounded(RunFull(front, window).0, c, window, limit, t);
    }
  }

  lemma AdmissionCounts(log: Log, c: Call, window: int, t: real)
    requires WellFormed(c) && AllFresh(log, c)
    ensures |Within(LogFirst(log, c, |c.entries|), t, window)|
         == |Within(log, t, window)| + (if InWindow(c.now, t, window) then |c.entries| else 0)
  {
    AdmissionAdds(log, c, window, t);
    DistinctCount(c, |c.entries|);
  }

  /** With fresh members, the log of any decisions counts the units that they allow. */
  lemma {:induction false} UnitsAreLogged(calls: seq<Call>, allowed: seq<bool>, window: int, t: real)
    requires Calls(calls) && FreshMembers(calls) && |calls| == |allowed|
    ensures UnitsWithin(calls, allowed, t, window) == |Within(LogOf(calls, allowed), t, window)|
  {
    if calls == [] {
      assert Within(LogOf(calls, allowed), t, window) == {};
    } else {
      var k := |calls| - 1;
      UnitsAreLogged(calls[..k], allowed[..k], window, t);
      LastCallIsFresh(calls, allowed[..k]);
      AdmissionCounts(LogOf(calls[..k], allowed[..k]), calls[k], window, t);
    }
  }

  /** The limiter's promise, about the script's own decisions: over every run that loses no unit,
      with fresh members, and at every instant t, the units allowed in (t - window, t] never exceed
      the limit. */
  lemma ScriptKeepsLimit(calls: seq<Call>, window: int, limit: nat, t: real)
    requires Calls(calls) && NothingLost(calls, window) && FreshMembers(calls) && window > 0
    requires forall i :: 0 <= i < |calls| ==> calls[i].maxRequests <= limit
    ensures UnitsWithin(calls, RunScript(calls, window).1, t, window) <= limit
  {
    ScriptDecidesAsFullLog(calls, window);
    FullLogIsLogOf(calls, window);
    UnitsAreLogged(calls, RunFull(calls, window).1, window, t);
    WindowsStayWithinLimit(calls, window, limit, t);
  }

  /** Calls in time are needed: of two calls that each ask for the whole limit, the second is allowed
      within the window of the first whenever Redis runs it so late that the key has expired. */
  lemma LateScriptExceedsLimit(a: Call, b: Call, window: int, limit: nat)
    requires |a.entries| == |b.entries| == limit == a.maxRequests == b.maxRequests >= 1
    requires a.now <= b.now < a.now + window && b.redisNow > a.redisNow + window
    ensures RunScript([a] + [b], window).1 == [true] + [true]
    ensures UnitsWithin([a] + [b], [true] + [true], b.now as real, window) == 2 * limit > limit
  {
    LateScriptIsAllowed(a, b, window);
    UnitsStep([], [], a, true, b.now as real, window);
    UnitsStep([a], [true], b, true, b.now as real, window);
    assert [] + [a] == [a] && [] + [true] == [true];
  }

  lemma LateScriptIsAllowed(a: Call, b: Call, window: int)
    requires 1 <= |a.entries| <= a.maxRequests && 1 <= |b.entries| <= b.maxRequests
    requires b.redisNow > a.redisNow + window
    ensures RunScript([a] + [b], window).1 == [true] + [true]
  {
    EmptyAllows(NO_KEY, a, window);
    EmptyAllows(Script(NO_KEY, a, window).0, b, window);
    ScriptStep([], a, window);
    ScriptStep([a], b, window);
    assert [] + [a] == [a] && [] + [true] == [true];
  }

  lemma EmptyAllows(z: ZSet, c: Call, window: int)
    requires z.members == map[] || Expired(z, c.redisNow)
    requires 1 <= |c.entries| <= c.maxRequests
    ensures Script(z, c, window).1 && Script(z, c, window).0.expireAt == Some(c.redisNow + window)
  {
    assert AfterPrune(z, c.now, c.redisNow, window).members == map[];
  }

  lemma ScriptStep(front: seq<Call>, c: Call, window: int)
    ensures var (z, ds) := RunScript(front, window);
            RunScript(front + [c], window) == (Script(z, c, window).0, ds + [Script(z, c, window).1])
  {
    assert (front + [c])[..|front|] == front;
  }

  lemma UnitsStep(front: seq<Call>, allowed: seq<bool>, c: Call, d: bool, t: real, window: int)
    requires |front| == |allowed|
    ensures UnitsWithin(front + [c], allowed + [d], t, window)
         == UnitsWithin(front, allowed, t, window) + (if d && InWindow(c.now, t, window) then |c.entries| else 0)
  {
    assert (front + [c])[..|front|] == front && (allowed + [d])[..|front|] == allowed;
  }

  // ----- Denials -----

  lemma FullStep(front: seq<Call>, c: Call, window: int)
    ensures RunFull(front + [c], window).0 == FullLimiter(RunFull(front, window).0, c, window).0
    ensures RunFull(front + [c], window).1
         == RunFull(front, window).1 + [FullLimiter(RunFull(front, window).0, c, window).1]
    ensures Setter(front + [c], window)
         == if FullLimiter(RunFull(front, window).0, c, window).1 then Some(c) else Setter(front, window)
  {
    assert (front + [c])[..|front|] == front;
  }

  /** A list with one entry put in at place i. */
  function Inserted(s: seq<bool>, i: nat, b: bool): (r: seq<bool>)
    requires i <= |s|
  {
    s[..i] + [b] + s[i..]
  }

  lemma InsertedThenLonger(s: seq<bool>, i: nat, b: bool, d: bool)
    requires i <= |s|
    ensures Inserted(s + [d], i, b) == Inserted(s, i, b) + [d]
  {
  }

  /** Two runs that agree up to one inserted denial still do so after one more call. */
  ghost predicate SameButDenial(all: seq<Call>, less: seq<Call>, i: nat, window: int)
    requires i <= |less|
  {
    && RunFull(all, window).0 == RunFull(less, window).0
    && RunFull(all, window).1 == Inserted(RunFull(less, window).1, i, false)
    && Setter(all, window) == Setter(less, window)
  }

  lemma SameAfterCall(all: seq<Call>, less: seq<Call>, i: nat, c: Call, window: int)
    requires i <= |less| && SameButDenial(all, less, i, window)
    ensures SameButDenial(all + [c], less + [c], i, window)
  {
    FullStep(all, c, window);
    FullStep(less, c, window);
    InsertedThenLonger(RunFull(less, window).1, i, false, FullLimiter(RunFull(less, window).0, c, window).1);
  }

  lemma {:induction false} DenialLeavesLog(before: seq<Call>, c: Call, after: seq<Call>, window: int)
    requires !FullLimiter(RunFull(before, window).0, c, window).1
    ensures SameButDenial(before + [c] + after, before + after, |before|, window)
  {
    if after == [] {
      assert before + after == before && before + [c] + after == before + [c];
      FullStep(before, c, window);
    } else {
      var k := |after| - 1;
      var all, less := before + [c] + after[..k], before + after[..k];
      assert before + [c] + after == all + [after[k]] && before + after == less + [after[k]];
      DenialLeavesLog(before, c, after[..k], window);
      SameAfterCall(all, less, |before|, after[k], window);
    }
  }

  /** Without a denied call a run loses nothing that it would not lose with it. */
  lemma {:induction false} LessLosesNothing(before: seq<Call>, c: Call, after: seq<Call>, window: int)
    requires NothingLost(before + [c] + after, window) && !FullLimiter(RunFull(before, window).0, c, window).1
    ensures NothingLost(before + after, window)
  {
    if after == [] {
      assert before + [c] + after == before + [c] && before + after == before;
      FrontOfAppended(before, c, window);
    } else {
      var k := |after| - 1;
      var all, less := before + [c] + after[..k], before + after[..k];
      assert before + [c] + after == all + [after[k]] && before + after == less + [after[k]];
      FrontOfAppended(all, after[k], window);
      LessLosesNothing(before, c, after[..k], window);
      DenialLeavesLog(before, c, after[..k], window);
      assert (less + [after[k]])[..|less|] == less;
      OneMoreLosesNothing(less + [after[k]], window);
    }
  }

  lemma FrontOfAppended(front: seq<Call>, c: Call, window: int)
    requires NothingLost(front + [c], window)
    ensures NothingLost(front, window) && !Loses(front, c, window)
  {
    assert (front + [c])[..|front|] == front;
    FrontLosesNothing(front + [c], window);
  }

  /** A denied call changes no later decision: the script decides as if it had not been made. */
  lemma DenialsLeaveNoTrace(before: seq<Call>, c: Call, after: seq<Call>, window: int)
    requires Calls(before + [c] + after) && NothingLost(before + [c] + after, window) && window > 0
    requires !Script(RunScript(before, window).0, c, window).1
    ensures RunScript(before + [c] + after, window).1 == Inserted(RunScript(before + after, window).1, |before|, false)
  {
    WithoutOneCall(before, c, after);
    PrefixLosesNothing(before + [c] + after, |before| + 1, window);
    assert (before + [c] + after)[..|before| + 1] == before + [c];
    FrontOfAppended(before, c, window);
    DenialIsTheLogs(before, c, window);
    LessLosesNothing(before, c, after, window);
    ScriptDecidesAsFullLog(before + after, window);
    ScriptDecidesAsFullLog(before + [c] + after, window);
    DenialLeavesLog(before, c, after, window);
  }

  lemma DenialIsTheLogs(before: seq<Call>, c: Call, window: int)
    requires Calls(before + [c]) && NothingLost(before + [c], window) && window > 0
    ensures Script(RunScript(before, window).0, c, window).1 == FullLimiter(RunFull(before, window).0, c, window).1
  {
    ScriptDecidesAsFullLog(before + [c], window);
    ScriptStep(before, c, window);
    FullStep(before, c, window);
    LastOfAppended(RunScript(before, window).1, Script(RunScript(before, window).0, c, window).1);
    LastOfAppended(RunFull(before, window).1, FullLimiter(RunFull(before, window).0, c, window).1);
  }

  lemma LastOfAppended(s: seq<bool>, d: bool)
    ensures (s + [d])[|s|] == d
  {
  }

  lemma WithoutOneCall(before: seq<Call>, c: Call, after: seq<Call>)
    requires Calls(before + [c] + after)
    ensures Calls(before) && Calls(before + after) && Calls(before + [c])
  {
    var all, less := before + [c] + after, before + after;
    assert all[|before|] == c;
    assert forall i :: 0 <= i < |before| ==> all[i] == before[i] == less[i];
    assert forall i :: |before| <= i < |less| ==> all[i + 1] == less[i];
  }
}

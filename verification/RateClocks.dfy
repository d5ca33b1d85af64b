/** What two clocks do to the rate limiter: for which clocks its promises hold, whatever is asked. */
module RateClocks {
  import opened Base
  import opened RateLimiter

  // ----- Runs on given clocks -----

  /** The caller's clock and Redis's clock of one call. */
  datatype Clock = Clock(now: int, redisNow: int)

  /** A call that allowN sends to Redis. */
  ghost predicate IsSent(c: Call) { WellFormed(c) && |c.entries| >= 1 && c.maxRequests >= 1 }

  ghost predicate OnClock(c: Call, clock: Clock) {
    IsSent(c) && c.now == clock.now && c.redisNow == clock.redisNow
  }

  ghost predicate OnClocks(calls: seq<Call>, clocks: seq<Clock>) {
    |calls| == |clocks| && forall i :: 0 <= i < |calls| ==> OnClock(calls[i], clocks[i])
  }

  /** The callers' clocks do not go back. */
  predicate GoesForward(clocks: seq<Clock>) {
    forall i, j :: 0 <= i < j < |clocks| ==> clocks[i].now <= clocks[j].now
  }

  lemma SentCalls(calls: seq<Call>, clocks: seq<Clock>)
    requires OnClocks(calls, clocks) && GoesForward(clocks)
    ensures Calls(calls)
  {
    assert forall i :: 0 <= i < |calls| ==> OnClock(calls[i], clocks[i]);
  }

  ghost predicate WithinCeiling(calls: seq<Call>, limit: int) {
    forall i :: 0 <= i < |calls| ==> calls[i].maxRequests <= limit
  }

  ghost predicate KeepsLimitAt(calls: seq<Call>, window: int, limit: int, t: real) {
    UnitsWithin(calls, RunScript(calls, window).1, t, window) <= limit
  }

  /** On these clocks no window, at any instant, is ever given more than the limit. */
  ghost predicate AlwaysKeepsLimit(clocks: seq<Clock>, window: int, limit: int) {
    forall calls, t: real | OnClocks(calls, clocks) && FreshMembers(calls) && WithinCeiling(calls, limit) ::
      KeepsLimitAt(calls, window, limit, t)
  }

  /** On these clocks the script always decides as the full log does. */
  ghost predicate AlwaysDecidesAsFullLog(clocks: seq<Clock>, window: int) {
    forall calls | OnClocks(calls, clocks) :: RunScript(calls, window).1 == RunFull(calls, window).1
  }

  /** Redis has seen more than a window pass from a to b, the callers less than a window. */
  predicate CutsShort(a: Clock, b: Clock, window: int) {
    b.redisNow > a.redisNow + window && b.now < a.now + window
  }

  ghost predicate NeverCutsShort(clocks: seq<Clock>, window: int) {
    forall i, j :: 0 <= i < j < |clocks| ==> !CutsShort(clocks[i], clocks[j], window)
  }

  /** Redis has seen more than a window pass from a to b, the callers no more than a window. */
  predicate RunsAhead(a: Clock, b: Clock, window: int) {
    b.redisNow > a.redisNow + window && b.now <= a.now + window
  }

  ghost predicate NeverRunsAhead(clocks: seq<Clock>, window: int) {
    forall i, j :: 0 <= i < j < |clocks| ==> !RunsAhead(clocks[i], clocks[j], window)
  }

  // ----- The script holds every unit that a window can still reach -----

  function ScriptLog(calls: seq<Call>, window: int): (log: Log)
  {
    LogOf(calls, RunScript(calls, window).1)
  }

  /** The last call that the script allowed. */
  function LastAllowed(calls: seq<Call>, window: int): (c: Option<Call>)
  {
    if calls == [] then None
    else
      var k := |calls| - 1;
      if RunScript(calls, window).1[k] then Some(calls[k]) else LastAllowed(calls[..k], window)
  }

  lemma {:induction false} LastAllowedHasPlace(calls: seq<Call>, window: int) returns (i: nat)
    requires LastAllowed(calls, window).Some?
    ensures i < |calls| && calls[i] == LastAllowed(calls, window).value
  {
    i := |calls| - 1;
    if !RunScript(calls, window).1[i] {
      i := LastAllowedHasPlace(calls[..i], window);
    }
  }

  /** A unit that was admitted less than a window ago is in the set. */
  ghost predicate Held(z: ZSet, log: Log, last: int, window: int, setter: Option<Call>, m: string) {
    m in log ==>
      && log[m].at <= last && setter.Some? && log[m].at <= setter.value.now
      && (log[m].at > last - window ==> m in z.members && z.members[m] >= log[m].at as real)
  }

  ghost predicate AllHeld(z: ZSet, log: Log, last: int, window: int, setter: Option<Call>) {
    ExpiryOk(z, window, setter) && forall m :: Held(z, log, last, window, setter, m)
  }

  ghost predicate RunIsHeld(calls: seq<Call>, window: int) {
    AllHeld(RunScript(calls, window).0, ScriptLog(calls, window), LastNow(calls), window, LastAllowed(calls, window))
  }

  /** The call comes no earlier than the last allowed one, and its clock does not cut that one short. */
  ghost predicate Follows(setter: Option<Call>, c: Call, window: int) {
    setter.Some? ==>
      && setter.value.now <= c.now
      && (c.redisNow > setter.value.redisNow + window ==> c.now >= setter.value.now + window)
  }

  lemma SweepHolds(z: ZSet, log: Log, last: int, setter: Option<Call>, c: Call, window: int)
    requires AllHeld(z, log, last, window, setter) && last <= c.now && window > 0 && Follows(setter, c, window)
    ensures AllHeld(AfterPrune(z, c.now, c.redisNow, window), log, c.now, window, setter)
  {
    var z' := AfterPrune(z, c.now, c.redisNow, window);
    forall m ensures Held(z', log, c.now, window, setter, m) {
      assert Held(z, log, last, window, setter, m);
    }
  }

  lemma AdmissionHolds(z: ZSet, log: Log, setter: Option<Call>, c: Call, window: int)
    requires AllHeld(z, log, c.now, window, setter) && Follows(setter, c, window)
    requires WellFormed(c) && window > 0
    ensures var z' := ZSet(AddFirst(z.members, c, |c.entries|), Some(c.redisNow + window));
            AllHeld(z', LogFirst(log, c, |c.entries|), c.now, window, Some(c))
  {
    var n := |c.entries|;
    var z' := ZSet(AddFirst(z.members, c, n), Some(c.redisNow + window));
    forall m ensures Held(z', LogFirst(log, c, n), c.now, window, Some(c), m) {
      AddedUnits(z.members, log, c, n, m);
      assert Held(z, log, c.now, window, setter, m);
    }
  }

  lemma LastAllowedStep(front: seq<Call>, c: Call, window: int)
    ensures var d := Script(RunScript(front, window).0, c, window).1;
            && LastAllowed(front + [c], window) == (if d then Some(c) else LastAllowed(front, window))
            && ScriptLog(front + [c], window)
               == if d then LogFirst(ScriptLog(front, window), c, |c.entries|) else ScriptLog(front, window)
  {
    var all := front + [c];
    ScriptStep(front, c, window);
    assert all[..|front|] == front && all[|front|] == c;
    assert RunScript(all, window).1[..|front|] == RunScript(front, window).1;
  }

  lemma FrontFollows(calls: seq<Call>, clocks: seq<Clock>, window: int)
    requires OnClocks(calls, clocks) && GoesForward(clocks) && NeverCutsShort(clocks, window) && calls != []
    ensures var k := |calls| - 1;
            && OnClocks(calls[..k], clocks[..k]) && GoesForward(clocks[..k]) && NeverCutsShort(clocks[..k], window)
            && Follows(LastAllowed(calls[..k], window), calls[k], window)
  {
    var k := |calls| - 1;
    forall i | 0 <= i < k ensures OnClock(calls[..k][i], clocks[..k][i]) {
      assert OnClock(calls[i], clocks[i]);
    }
    assert OnClock(calls[k], clocks[k]);
    if LastAllowed(calls[..k], window).Some? {
      var i := LastAllowedHasPlace(calls[..k], window);
      assert OnClock(calls[i], clocks[i]) && !CutsShort(clocks[i], clocks[k], window);
    }
  }

  lemma {:induction false} RunHolds(calls: seq<Call>, clocks: seq<Clock>, window: int)
    requires OnClocks(calls, clocks) && GoesForward(clocks) && NeverCutsShort(clocks, window) && window > 0
    ensures RunIsHeld(calls, window)
  {
    if calls != [] {
      var k := |calls| - 1;
      var front, c := calls[..k], calls[k];
      FrontFollows(calls, clocks, window);
      RunHolds(front, clocks[..k], window);
      SentCalls(calls, clocks);
      CallHolds(front, c, window);
      assert front + [c] == calls;
    }
  }

  lemma CallHolds(front: seq<Call>, c: Call, window: int)
    requires RunIsHeld(front, window)
    requires Calls(front + [c]) && WellFormed(c) && Follows(LastAllowed(front, window), c, window) && window > 0
    ensures var all := front + [c];
            AllHeld(RunScript(all, window).0, ScriptLog(all, window), c.now, window, LastAllowed(all, window))
  {
    var z, log, setter := RunScript(front, window).0, ScriptLog(front, window), LastAllowed(front, window);
    LastComesBefore(front, c);
    ScriptStep(front, c, window);
    LastAllowedStep(front, c, window);
    AllHeldBefore(front, c, window);
    SweepHolds(z, log, ClockBefore(front, c), setter, c, window);
    if Script(z, c, window).1 {
      AdmissionHolds(AfterPrune(z, c.now, c.redisNow, window), log, setter, c, window);
    }
  }

  lemma AllHeldBefore(front: seq<Call>, c: Call, window: int)
    requires RunIsHeld(front, window)
    ensures AllHeld(RunScript(front, window).0, ScriptLog(front, window), ClockBefore(front, c), window,
                    LastAllowed(front, window))
  {
    if front == [] {
      assert ScriptLog(front, window) == map[];
    }
  }

  lemma LastComesBefore(front: seq<Call>, c: Call)
    requires Calls(front + [c])
    ensures ClockBefore(front, c) <= c.now
  {
    if front != [] {
      var all := front + [c];
      assert all[|front| - 1] == front[|front| - 1] && all[|front|] == c;
    }
  }

  // ----- So every window stays within the limit -----

  lemma HeldWithin(z: ZSet, log: Log, c: Call, window: int, setter: Option<Call>, t: real)
    requires AllHeld(z, log, c.now, window, setter) && t >= c.now as real
    ensures Within(log, t, window) <= z.members.Keys
  {
    forall m | m in Within(log, t, window) ensures m in z.members {
      assert Held(z, log, c.now, window, setter, m);
    }
  }

  lemma HeldFits(z: ZSet, log: Log, c: Call, window: int, setter: Option<Call>, limit: int, t: real)
    requires AllHeld(z, log, c.now, window, setter) && t >= c.now as real
    requires WellFormed(c) && Admits(|z.members|, c) && c.maxRequests <= limit
    ensures |Within(log, t, window) + Asked(c)| <= limit
  {
    HeldWithin(z, log, c, window, setter, t);
    DistinctCount(c, |c.entries|);
    SameSize(z.members);
    CoverSize(Within(log, t, window) + Asked(c), z.members.Keys, Asked(c));
  }

  lemma CallIsBounded(z: ZSet, log: Log, c: Call, window: int, setter: Option<Call>, limit: int, t: real)
    requires AllHeld(z, log, c.now, window, setter) && AllFresh(log, c)
    requires WellFormed(c) && Admits(|z.members|, c) && c.maxRequests <= limit
    requires |Within(log, t, window)| <= limit
    ensures |Within(LogFirst(log, c, |c.entries|), t, window)| <= limit
  {
    AdmissionAdds(log, c, window, t);
    if InWindow(c.now, t, window) {
      HeldFits(z, log, c, window, setter, limit, t);
    }
  }

  lemma FrontIsFresh(calls: seq<Call>)
    requires FreshMembers(calls) && calls != []
    ensures FreshMembers(calls[..|calls| - 1])
  {
  }

  lemma {:induction false} LoggedWithinLimit(calls: seq<Call>, clocks: seq<Clock>, window: int, limit: nat, t: real)
    requires OnClocks(calls, clocks) && GoesForward(clocks) && NeverCutsShort(clocks, window) && window > 0
    requires FreshMembers(calls) && WithinCeiling(calls, limit)
    ensures |Within(ScriptLog(calls, window), t, window)| <= limit
  {
    if calls == [] {
      assert Within(ScriptLog(calls, window), t, window) == {};
    } else {
      var k := |calls| - 1;
      FrontFollows(calls, clocks, window);
      FrontIsFresh(calls);
      LoggedWithinLimit(calls[..k], clocks[..k], window, limit, t);
      RunHolds(calls[..k], clocks[..k], window);
      SentCalls(calls, clocks);
      LastCallIsFresh(calls, RunScript(calls[..k], window).1);
      assert calls[..k] + [calls[k]] == calls;
      LastCallIsBounded(calls[..k], calls[k], window, limit, t);
    }
  }

  lemma LastCallIsBounded(front: seq<Call>, c: Call, window: int, limit: nat, t: real)
    requires RunIsHeld(front, window)
    requires Calls(front + [c]) && WellFormed(c) && Follows(LastAllowed(front, window), c, window) && window > 0
    requires AllFresh(ScriptLog(front, window), c) && c.maxRequests <= limit
    requires |Within(ScriptLog(front, window), t, window)| <= limit
    ensures |Within(ScriptLog(front + [c], window), t, window)| <= limit
  {
    var z, log, setter := RunScript(front, window).0, ScriptLog(front, window), LastAllowed(front, window);
    LastComesBefore(front, c);
    LastAllowedStep(front, c, window);
    AllHeldBefore(front, c, window);
    SweepHolds(z, log, ClockBefore(front, c), setter, c, window);
    if Script(z, c, window).1 {
      CallIsBounded(AfterPrune(z, c.now, c.redisNow, window), log, c, window, setter, limit, t);
    }
  }

  /** Over every run whose clocks never cut a window short, and at every instant t, the units allowed
      in (t - window, t] stay within the limit. */
  lemma ClocksKeepLimit(calls: seq<Call>, clocks: seq<Clock>, window: int, limit: nat, t: real)
    requires OnClocks(calls, clocks) && GoesForward(clocks) && NeverCutsShort(clocks, window) && window > 0
    requires FreshMembers(calls) && WithinCeiling(calls, limit)
    ensures UnitsWithin(calls, RunScript(calls, window).1, t, window) <= limit
  {
    SentCalls(calls, clocks);
    UnitsAreLogged(calls, RunScript(calls, window).1, window, t);
    LoggedWithinLimit(calls, clocks, window, limit, t);
  }

  // ----- Two calls that show the failure -----

  /** The name of unit u of call k. */
  function Name(k: nat, u: nat): (s: string)
  {
    seq(k + 1 + u, i => if i == k then 'b' else 'a')
  }

  lemma NamesDiffer(k: nat, u: nat, l: nat, v: nat)
    requires Name(k, u) == Name(l, v)
    ensures k == l && u == v
  {
    assert Name(k, u)[k] == Name(l, v)[k];
    assert |Name(k, u)| == |Name(l, v)|;
  }

  function Units(k: nat, now: int, n: nat): (e: seq<Entry>)
    ensures |e| == n
    ensures forall u :: 0 <= u < n ==> e[u] == Entry(Name(k, u), now as real + 0.5)
  {
    seq(n, u requires 0 <= u < n => Entry(Name(k, u), now as real + 0.5))
  }

  /** Calls i and j ask for the whole limit, every other call for one unit more. */
  function CallAt(clocks: seq<Clock>, limit: nat, i: nat, j: nat, k: nat): (c: Call)
    requires k < |clocks|
  {
    var now := clocks[k].now;
    Call(now, clocks[k].redisNow, limit, Units(k, now, if k == i || k == j then limit else limit + 1))
  }

  /** The first n calls of that kind. */
  function TwoFull(clocks: seq<Clock>, limit: nat, i: nat, j: nat, n: nat): (calls: seq<Call>)
    requires n <= |clocks|
    ensures |calls| == n
    ensures forall k :: 0 <= k < n ==> calls[k] == CallAt(clocks, limit, i, j, k)
  {
    seq(n, k requires 0 <= k < n => CallAt(clocks, limit, i, j, k))
  }

  lemma TwoFullStep(clocks: seq<Clock>, limit: nat, i: nat, j: nat, n: nat)
    requires n < |clocks|
    ensures TwoFull(clocks, limit, i, j, n + 1) == TwoFull(clocks, limit, i, j, n) + [CallAt(clocks, limit, i, j, n)]
  {
  }

  lemma TwoFullPrefix(clocks: seq<Clock>, limit: nat, i: nat, j: nat, n: nat)
    requires n <= |clocks|
    ensures TwoFull(clocks, limit, i, j, |clocks|)[..n] == TwoFull(clocks, limit, i, j, n)
  {
  }

  lemma CallAtIsSent(clocks: seq<Clock>, limit: nat, i: nat, j: nat, k: nat)
    requires k < |clocks| && limit >= 1
    ensures OnClock(CallAt(clocks, limit, i, j, k), clocks[k])
  {
    var c := CallAt(clocks, limit, i, j, k);
    forall u, v | 0 <= u < v < |c.entries| ensures c.entries[u].member != c.entries[v].member {
      if Name(k, u) == Name(k, v) {
        NamesDiffer(k, u, k, v);
      }
    }
  }

  lemma TwoFullIsSent(clocks: seq<Clock>, limit: nat, i: nat, j: nat)
    requires limit >= 1
    ensures OnClocks(TwoFull(clocks, limit, i, j, |clocks|), clocks)
    ensures WithinCeiling(TwoFull(clocks, limit, i, j, |clocks|), limit)
  {
    forall k | 0 <= k < |clocks| ensures OnClock(TwoFull(clocks, limit, i, j, |clocks|)[k], clocks[k]) {
      CallAtIsSent(clocks, limit, i, j, k);
    }
  }

  lemma NoNameInCommon(clocks: seq<Clock>, limit: nat, i: nat, j: nat, k: nat, l: nat)
    requires k < l < |clocks|
    ensures Asked(CallAt(clocks, limit, i, j, k)) !! Asked(CallAt(clocks, limit, i, j, l))
  {
    var c, d := CallAt(clocks, limit, i, j, k), CallAt(clocks, limit, i, j, l);
    forall x | x in Asked(c) ensures x !in Asked(d) {
      if x in Asked(d) {
        AskedHasPlace(c, |c.entries|, x);
        AskedHasPlace(d, |d.entries|, x);
        var u :| 0 <= u < |c.entries| && c.entries[u].member == x;
        var v :| 0 <= v < |d.entries| && d.entries[v].member == x;
        NamesDiffer(k, u, l, v);
      }
    }
  }

  lemma TwoFullIsFresh(clocks: seq<Clock>, limit: nat, i: nat, j: nat)
    ensures FreshMembers(TwoFull(clocks, limit, i, j, |clocks|))
  {
    forall k, l | 0 <= k < l < |clocks|
      ensures var calls := TwoFull(clocks, limit, i, j, |clocks|); Asked(calls[k]) !! Asked(calls[l])
    {
      NoNameInCommon(clocks, limit, i, j, k, l);
    }
  }

  /** Between its two calls the script's set is empty or still expires as the first of them said. */
  ghost predicate Waiting(z: ZSet, clocks: seq<Clock>, window: int, i: nat, n: nat)
    requires i < |clocks|
  {
    if n <= i then z.members == map[]
    else z.members == map[] || z.expireAt == Some(clocks[i].redisNow + window)
  }

  lemma OneTooManyIsDenied(z: ZSet, c: Call, window: int)
    requires |c.entries| > c.maxRequests
    ensures !Script(z, c, window).1 && Script(z, c, window).0 == AfterPrune(z, c.now, c.redisNow, window)
  {
  }

  lemma WaitStep(z: ZSet, clocks: seq<Clock>, window: int, limit: nat, i: nat, j: nat, n: nat)
    requires i < j < |clocks| && n < j && limit >= 1 && Waiting(z, clocks, window, i, n)
    ensures var r := Script(z, CallAt(clocks, limit, i, j, n), window);
            Waiting(r.0, clocks, window, i, n + 1) && (r.1 <==> n == i)
  {
    var c := CallAt(clocks, limit, i, j, n);
    if n == i {
      EmptyAllows(z, c, window);
    } else {
      OneTooManyIsDenied(z, c, window);
    }
  }

  /** The script's set after n calls, and its decision on the next. */
  lemma NextCall(clocks: seq<Clock>, window: int, limit: nat, i: nat, j: nat, n: nat)
    requires n < |clocks|
    ensures var z := RunScript(TwoFull(clocks, limit, i, j, n), window).0;
            var (z', d) := Script(z, CallAt(clocks, limit, i, j, n), window);
            var r := RunScript(TwoFull(clocks, limit, i, j, n + 1), window);
            r.0 == z' && r.1[n] == d
  {
    TwoFullStep(clocks, limit, i, j, n);
    ScriptStep(TwoFull(clocks, limit, i, j, n), CallAt(clocks, limit, i, j, n), window);
  }

  lemma {:induction false} ScriptWaits(clocks: seq<Clock>, window: int, limit: nat, i: nat, j: nat, n: nat)
    requires i < j < |clocks| && n <= j && limit >= 1
    ensures Waiting(RunScript(TwoFull(clocks, limit, i, j, n), window).0, clocks, window, i, n)
  {
    if n > 0 {
      ScriptWaits(clocks, window, limit, i, j, n - 1);
      WaitStep(RunScript(TwoFull(clocks, limit, i, j, n - 1), window).0, clocks, window, limit, i, j, n - 1);
      NextCall(clocks, window, limit, i, j, n - 1);
    }
  }

  lemma FirstIsAllowed(clocks: seq<Clock>, window: int, limit: nat, i: nat, j: nat)
    requires i < j < |clocks| && limit >= 1
    ensures RunScript(TwoFull(clocks, limit, i, j, i + 1), window).1[i]
  {
    ScriptWaits(clocks, window, limit, i, j, i);
    WaitStep(RunScript(TwoFull(clocks, limit, i, j, i), window).0, clocks, window, limit, i, j, i);
    NextCall(clocks, window, limit, i, j, i);
  }

  lemma SecondIsAllowed(clocks: seq<Clock>, window: int, limit: nat, i: nat, j: nat)
    requires i < j < |clocks| && limit >= 1 && clocks[j].redisNow > clocks[i].redisNow + window
    ensures RunScript(TwoFull(clocks, limit, i, j, j + 1), window).1[j]
  {
    ScriptWaits(clocks, window, limit, i, j, j);
    EmptyAllows(RunScript(TwoFull(clocks, limit, i, j, j), window).0, CallAt(clocks, limit, i, j, j), window);
    NextCall(clocks, window, limit, i, j, j);
  }

  lemma {:induction false} ScriptDecisionStays(calls: seq<Call>, window: int, n: nat, k: nat)
    requires k < n <= |calls|
    ensures RunScript(calls, window).1[k] == RunScript(calls[..n], window).1[k]
  {
    if n < |calls| {
      var m := |calls| - 1;
      ScriptDecisionStays(calls[..m], window, n, k);
      assert calls[..m][..n] == calls[..n];
      assert RunScript(calls, window).1[..m] == RunScript(calls[..m], window).1;
    } else {
      assert calls[..n] == calls;
    }
  }

  lemma {:induction false} LogDecisionStays(calls: seq<Call>, window: int, n: nat, k: nat)
    requires k < n <= |calls|
    ensures RunFull(calls, window).1[k] == RunFull(calls[..n], window).1[k]
  {
    if n < |calls| {
      var m := |calls| - 1;
      LogDecisionStays(calls[..m], window, n, k);
      assert calls[..m][..n] == calls[..n];
      assert RunFull(calls, window).1[..m] == RunFull(calls[..m], window).1;
    } else {
      assert calls[..n] == calls;
    }
  }

  lemma {:induction false} UnitsOfTwo(calls: seq<Call>, allowed: seq<bool>, t: real, window: int, i: nat, j: nat)
    requires |calls| == |allowed| && i < j < |calls| && allowed[i] && allowed[j]
    requires InWindow(calls[i].now, t, window) && InWindow(calls[j].now, t, window)
    ensures UnitsWithin(calls, allowed, t, window) >= |calls[i].entries| + |calls[j].entries|
  {
    var k := |calls| - 1;
    if j < k {
      UnitsOfTwo(calls[..k], allowed[..k], t, window, i, j);
    } else {
      UnitsOfOne(calls[..k], allowed[..k], t, window, i);
    }
  }

  lemma {:induction false} UnitsOfOne(calls: seq<Call>, allowed: seq<bool>, t: real, window: int, i: nat)
    requires |calls| == |allowed| && i < |calls| && allowed[i] && InWindow(calls[i].now, t, window)
    ensures UnitsWithin(calls, allowed, t, window) >= |calls[i].entries|
  {
    var k := |calls| - 1;
    if i < k {
      UnitsOfOne(calls[..k], allowed[..k], t, window, i);
    }
  }

  /** In the whole run the script allows calls i and j. */
  lemma BothAllowed(clocks: seq<Clock>, window: int, limit: nat, i: nat, j: nat)
    requires i < j < |clocks| && limit >= 1 && clocks[j].redisNow > clocks[i].redisNow + window
    ensures var ds := RunScript(TwoFull(clocks, limit, i, j, |clocks|), window).1; ds[i] && ds[j]
  {
    FirstIsAllowed(clocks, window, limit, i, j);
    AllowedInPrefix(clocks, window, limit, i, j, i);
    SecondIsAllowed(clocks, window, limit, i, j);
    AllowedInPrefix(clocks, window, limit, i, j, j);
  }

  lemma AllowedInPrefix(clocks: seq<Clock>, window: int, limit: nat, i: nat, j: nat, k: nat)
    requires k < |clocks| && RunScript(TwoFull(clocks, limit, i, j, k + 1), window).1[k]
    ensures RunScript(TwoFull(clocks, limit, i, j, |clocks|), window).1[k]
  {
    TwoFullPrefix(clocks, limit, i, j, k + 1);
    ScriptDecisionStays(TwoFull(clocks, limit, i, j, |clocks|), window, k + 1, k);
  }

  /** When clock j cuts the window of clock i short, two calls for the whole limit break it. */
  lemma CutBreaksLimit(clocks: seq<Clock>, window: int, limit: nat, i: nat, j: nat)
    requires GoesForward(clocks) && limit >= 1 && i < j < |clocks| && CutsShort(clocks[i], clocks[j], window)
    ensures !AlwaysKeepsLimit(clocks, window, limit)
  {
    var calls, t := TwoFull(clocks, limit, i, j, |clocks|), clocks[j].now as real;
    BothAllowed(clocks, window, limit, i, j);
    UnitsOfTwo(calls, RunScript(calls, window).1, t, window, i, j);
    TwoFullIsSent(clocks, limit, i, j);
    TwoFullIsFresh(clocks, limit, i, j);
    assert !KeepsLimitAt(calls, window, limit, t);
  }

  /** The limiter keeps its promise, whatever is asked of it, exactly on the clocks that never cut a
      window short: no two calls between which Redis sees more than a window pass and the callers
      less than one. */
  lemma LimitIsKeptIff(clocks: seq<Clock>, window: int, limit: nat)
    requires GoesForward(clocks) && window > 0 && limit >= 1
    ensures AlwaysKeepsLimit(clocks, window, limit) <==> NeverCutsShort(clocks, window)
  {
    if NeverCutsShort(clocks, window) {
      forall calls, t: real | OnClocks(calls, clocks) && FreshMembers(calls) && WithinCeiling(calls, limit)
        ensures KeepsLimitAt(calls, window, limit, t)
      {
        ClocksKeepLimit(calls, clocks, window, limit, t);
      }
    } else {
      var i, j :| 0 <= i < j < |clocks| && CutsShort(clocks[i], clocks[j], window);
      CutBreaksLimit(clocks, window, limit, i, j);
    }
  }

  // ----- Agreement with the full log -----

  lemma ClocksInTime(calls: seq<Call>, clocks: seq<Clock>, window: int)
    requires OnClocks(calls, clocks) && NeverRunsAhead(clocks, window)
    ensures AllInTime(calls, window)
  {
    forall i, j | 0 <= i < j < |calls| ensures InTime(calls[i], calls[j], window) {
      assert OnClock(calls[i], clocks[i]) && OnClock(calls[j], clocks[j]);
      assert !RunsAhead(clocks[i], clocks[j], window);
    }
  }

  /** Before call j the log holds the unit of call i, and nothing else. */
  ghost predicate LogsFirst(log: Log, clocks: seq<Clock>, i: nat, n: nat)
    requires i < |clocks|
  {
    if n <= i then log == map[]
    else Name(i, 0) in log && log[Name(i, 0)].score == clocks[i].now as real + 0.5
  }

  lemma OneUnitIsLogged(log: Log, c: Call)
    requires |c.entries| == 1
    ensures LogFirst(log, c, 1) == log[c.entries[0].member := Unit(c.entries[0].score, c.now)]
  {
    assert LogFirst(log, c, 0) == log;
  }

  lemma {:induction false} LogWaits(clocks: seq<Clock>, window: int, i: nat, j: nat, n: nat)
    requires i < j < |clocks| && n <= j
    ensures LogsFirst(RunFull(TwoFull(clocks, 1, i, j, n), window).0, clocks, i, n)
  {
    if n > 0 {
      var front, c := TwoFull(clocks, 1, i, j, n - 1), CallAt(clocks, 1, i, j, n - 1);
      LogWaits(clocks, window, i, j, n - 1);
      TwoFullStep(clocks, 1, i, j, n - 1);
      FullStep(front, c, window);
      if n - 1 == i {
        OneUnitIsLogged(map[], c);
        assert Recent(map[], c.now - window) == {};
      }
    }
  }

  /** The full log denies call j, whose window still has the unit of call i. */
  lemma LogDeniesSecond(clocks: seq<Clock>, window: int, i: nat, j: nat)
    requires i < j < |clocks| && clocks[j].now <= clocks[i].now + window
    ensures !RunFull(TwoFull(clocks, 1, i, j, j + 1), window).1[j]
  {
    var front, c := TwoFull(clocks, 1, i, j, j), CallAt(clocks, 1, i, j, j);
    var recent := Recent(RunFull(front, window).0, c.now - window);
    LogWaits(clocks, window, i, j, j);
    TwoFullStep(clocks, 1, i, j, j);
    FullStep(front, c, window);
    assert Name(i, 0) in recent;
  }

  lemma AheadDisagrees(clocks: seq<Clock>, window: int, i: nat, j: nat)
    requires i < j < |clocks| && RunsAhead(clocks[i], clocks[j], window)
    ensures !AlwaysDecidesAsFullLog(clocks, window)
  {
    var calls := TwoFull(clocks, 1, i, j, |clocks|);
    BothAllowed(clocks, window, 1, i, j);
    LogDeniesSecond(clocks, window, i, j);
    TwoFullPrefix(clocks, 1, i, j, j + 1);
    LogDecisionStays(calls, window, j + 1, j);
    TwoFullIsSent(clocks, 1, i, j);
  }

  /** The script decides as the full log, whatever is asked of it, exactly on the clocks that never
      run ahead: whenever Redis sees more than a window pass between two calls, the callers do too. */
  lemma DecidesAsFullLogIff(clocks: seq<Clock>, window: int)
    requires GoesForward(clocks) && window > 0
    ensures AlwaysDecidesAsFullLog(clocks, window) <==> NeverRunsAhead(clocks, window)
  {
    if NeverRunsAhead(clocks, window) {
      forall calls | OnClocks(calls, clocks) ensures RunScript(calls, window).1 == RunFull(calls, window).1 {
        SentCalls(calls, clocks);
        ClocksInTime(calls, clocks, window);
        InTimeLosesNothing(calls, window);
        ScriptDecidesAsFullLog(calls, window);
      }
    } else {
      var i, j :| 0 <= i < j < |clocks| && RunsAhead(clocks[i], clocks[j], window);
      AheadDisagrees(clocks, window, i, j);
    }
  }
}

/**
 The admission limiters: two sliding windows that keep a pruned queue of grants, and one
 that spaces grants apart. Times are exact reals in seconds.
 Models src/wbcz/m11_reports.py, DispenserRateLimiter.consume; src/wbcz/ozon_foundation.py,
 OzonClientIdRateLimiter.consume; src/wbcz/cis_inventory.py, SharedRateLimiter.acquire.
 */
module RateLimits {
  import opened Common

  const REPORT_WINDOW := 60.0
  const OZON_WINDOW := 1.0
  const GLOBAL_OZON_LIMIT_RPS := 50

  datatype Decision = Decision(allowed: bool, retryAfterSeconds: real)

  datatype RateError = CapabilityDisabled(reason: string) | ScopeKeyRequired | ClientIdRequired

  datatype Capability = Capability(rateFamily: string, requestsPerMinute: nat, enabled: bool, disabledReason: string)

  datatype RateKey = RateKey(scope: string, family: string)

  // ---------- Grants of one key, and the window over all of them ----------

  ghost predicate Ascending(times: seq<real>) {
    forall i, j :: 0 <= i <= j < |times| ==> times[i] <= times[j]
  }

  /** The grants in the window that ends at now: later than now - window, not later than now. */
  function InWindow(grants: seq<real>, now: real, window: real): seq<real> {
    if grants == [] then []
    else
      var last := grants[|grants| - 1];
      InWindow(grants[..|grants| - 1], now, window) + if now - window < last <= now then [last] else []
  }

  /** No window of this length, wherever it ends, holds more than limit grants. */
  ghost predicate NeverMoreThan(grants: seq<real>, limit: nat, window: real) {
    forall t: real :: |InWindow(grants, t, window)| <= limit
  }

  /** The queue is the tail of the full history, and everything before it is out of the window for good. */
  ghost predicate Prunes(queue: seq<real>, grants: seq<real>, now: real, window: real) {
    && |queue| <= |grants| && queue == grants[|grants| - |queue|..]
    && forall i :: 0 <= i < |grants| - |queue| ==> grants[i] <= now - window
  }

  lemma {:induction false} WindowOfSuffix(grants: seq<real>, k: nat, now: real, window: real)
    requires k <= |grants|
    requires forall i :: 0 <= i < k ==> grants[i] <= now - window
    requires forall i :: k <= i < |grants| ==> now - window < grants[i] <= now
    ensures InWindow(grants, now, window) == grants[k..]
  {
    if grants != [] {
      var rest := grants[..|grants| - 1];
      if k == |grants| {
        WindowOfSuffix(rest, k - 1, now, window);
      } else {
        WindowOfSuffix(rest, k, now, window);
        assert rest[k..] + [grants[|grants| - 1]] == grants[k..];
      }
    }
  }

  lemma {:induction false} WindowSize(grants: seq<real>, now: real, window: real)
    ensures |InWindow(grants, now, window)| <= |grants|
  {
    if grants != [] {
      WindowSize(grants[..|grants| - 1], now, window);
    }
  }

  /** A grant at a moment whose window holds fewer than limit keeps every window within the limit. */
  lemma GrantKeepsEveryWindow(grants: seq<real>, now: real, limit: nat, window: real)
    requires Ascending(grants) && (grants != [] ==> grants[|grants| - 1] <= now) && window > 0.0
    requires NeverMoreThan(grants, limit, window) && |InWindow(grants, now, window)| < limit
    ensures NeverMoreThan(grants + [now], limit, window)
  {
    var more := grants + [now];
    assert more[..|more| - 1] == grants;
    forall t: real ensures |InWindow(more, t, window)| <= limit {
      assert |InWindow(grants, t, window)| <= limit;
      if t - window < now <= t {
        LaterWindowHoldsNoMore(grants, now, t, window);
      }
    }
  }

  lemma {:induction false} LaterWindowHoldsNoMore(grants: seq<real>, now: real, t: real, window: real)
    requires now <= t && forall i :: 0 <= i < |grants| ==> grants[i] <= now
    ensures |InWindow(grants, t, window)| <= |InWindow(grants, now, window)|
  {
    if grants != [] {
      LaterWindowHoldsNoMore(grants[..|grants| - 1], now, t, window);
    }
  }

  /** Sliding window: fewer than limit grants in the window that ends now. */
  ghost predicate Admits(grants: seq<real>, now: real, limit: nat, window: real) {
    |InWindow(grants, now, window)| < limit
  }

  /** The first grant still in the window, when the window is full, is what a caller waits for. */
  lemma RetryIsExact(grants: seq<real>, k: nat, now: real, later: real, limit: nat, window: real)
    requires Ascending(grants) && k < |grants| && window > 0.0
    requires forall i :: 0 <= i < k ==> grants[i] <= now - window
    requires now - window < grants[k] && grants[|grants| - 1] <= now <= later
    requires |grants| - k == limit
    ensures Admits(grants, later, limit, window) <==> later >= now + (window - (now - grants[k]))
  {
    if later < grants[k] + window {
      WindowOfSuffix(grants, k, later, window);
    } else {
      var n := FirstAfter(grants, k + 1, later - window);
      WindowOfSuffix(grants, n, later, window);
    }
  }

  lemma {:induction false} FirstAfter(grants: seq<real>, from: nat, bound: real) returns (n: nat)
    requires Ascending(grants) && from <= |grants|
    requires forall i :: 0 <= i < from ==> grants[i] <= bound
    ensures from <= n <= |grants|
    ensures forall i :: 0 <= i < n ==> grants[i] <= bound
    ensures forall i :: n <= i < |grants| ==> bound < grants[i]
    decreases |grants| - from
  {
    if from < |grants| && grants[from] <= bound {
      n := FirstAfter(grants, from + 1, bound);
    } else {
      n := from;
    }
  }

  // ---------- The queues ----------

  /** One key at one moment: its deque, its full history of grants, and the promise kept so far. */
  ghost predicate KeyValid(queue: seq<real>, grants: seq<real>, clock: Option<real>, limit: nat, window: real) {
    && Ascending(grants) && NeverMoreThan(grants, limit, window)
    && match clock
       case None => queue == grants == []
       case Some(now) => (grants != [] ==> grants[|grants| - 1] <= now) && Prunes(queue, grants, now, window)
  }

  lemma KeyValidLater(queue: seq<real>, grants: seq<real>, clock: Option<real>, now: real, limit: nat, window: real)
    requires KeyValid(queue, grants, clock, limit, window) && (clock.Some? ==> clock.value <= now)
    ensures KeyValid(queue, grants, Some(now), limit, window)
  {
  }

  lemma NothingGranted(limit: nat, window: real)
    ensures KeyValid([], [], None, limit, window)
  {
  }

  /** What a caller may rely on: granted exactly when the window has room; a refusal names the exact moment it will. */
  ghost predicate Exact(grants: seq<real>, now: real, d: Decision, limit: nat, window: real) {
    && (d.allowed <==> Admits(grants, now, limit, window))
    && (d.allowed ==> d.retryAfterSeconds == 0.0)
    && (!d.allowed ==> forall later: real :: now <= later ==>
          (Admits(grants, later, limit, window) <==> later >= now + d.retryAfterSeconds))
  }

  lemma {:induction false} QueueIsTheWindow(queue: seq<real>, grants: seq<real>, now: real, window: real)
    requires Ascending(grants) && (grants != [] ==> grants[|grants| - 1] <= now)
    requires Prunes(queue, grants, now, window) && (queue != [] ==> queue[0] > now - window)
    ensures InWindow(grants, now, window) == queue
  {
    var k := |grants| - |queue|;
    forall i | k <= i < |grants| ensures now - window < grants[i] <= now {
      assert queue[0] == grants[k] && grants[k] <= grants[i] <= grants[|grants| - 1];
    }
    WindowOfSuffix(grants, k, now, window);
  }

  lemma RefusalIsExact(queue: seq<real>, grants: seq<real>, now: real, limit: nat, window: real)
    requires KeyValid(queue, grants, Some(now), limit, window) && window > 0.0 && 0 < limit
    requires |queue| >= limit && queue[0] > now - window
    ensures |queue| == limit && window - (now - queue[0]) >= 0.0
    ensures Exact(grants, now, Decision(false, window - (now - queue[0])), limit, window)
  {
    QueueIsTheWindow(queue, grants, now, window);
    WindowWithinLimit(grants, now, limit, window);
    var k := |grants| - |queue|;
    assert queue[0] == grants[k];
    forall later: real | now <= later
      ensures Admits(grants, later, limit, window) <==> later >= now + (window - (now - queue[0]))
    {
      RetryIsExact(grants, k, now, later, limit, window);
    }
  }

  lemma GrantIsExact(queue: seq<real>, grants: seq<real>, now: real, limit: nat, window: real)
    requires KeyValid(queue, grants, Some(now), limit, window) && window > 0.0
    requires |queue| < limit && (queue != [] ==> queue[0] > now - window)
    ensures Exact(grants, now, Decision(true, 0.0), limit, window)
    ensures KeyValid(queue + [now], grants + [now], Some(now), limit, window)
  {
    hide InWindow, NeverMoreThan;
    QueueIsTheWindow(queue, grants, now, window);
    GrantKeepsEveryWindow(grants, now, limit, window);
  }

  /** The popleft loop. */
  method PopExpired(queue: seq<real>, limit: nat, now: real, window: real, ghost grants: seq<real>)
    returns (kept: seq<real>)
    requires KeyValid(queue, grants, Some(now), limit, window)
    ensures KeyValid(kept, grants, Some(now), limit, window)
    ensures kept != [] ==> kept[0] > now - window
  {
    kept := queue;
    while kept != [] && kept[0] <= now - window
      invariant Prunes(kept, grants, now, window)
    {
      assert kept[0] == grants[|grants| - |kept|];
      kept := kept[1..];
    }
  }

  /** The body of both consume methods, on the deque of one key. */
  method Slide(queue: seq<real>, limit: nat, now: real, window: real, ghost grants: seq<real>)
    returns (d: Decision, kept: seq<real>)
    requires KeyValid(queue, grants, Some(now), limit, window) && window > 0.0 && 0 < limit
    ensures Exact(grants, now, d, limit, window)
    ensures KeyValid(kept, grants + if d.allowed then [now] else [], Some(now), limit, window)
    ensures |kept| <= limit
  {
    hide KeyValid, Exact;
    kept := PopExpired(queue, limit, now, window, grants);
    if |kept| >= limit {
      RefusalIsExact(kept, grants, now, limit, window);
      var retry := window - (now - kept[0]);
      d := Decision(false, if retry < 0.0 then 0.0 else retry);
      assert grants + [] == grants;
    } else {
      GrantIsExact(kept, grants, now, limit, window);
      kept := kept + [now];
      d := Decision(true, 0.0);
    }
  }

  lemma WindowWithinLimit(grants: seq<real>, now: real, limit: nat, window: real)
    requires NeverMoreThan(grants, limit, window)
    ensures |InWindow(grants, now, window)| <= limit
  {
  }

  function At<K>(m: map<K, seq<real>>, key: K): seq<real> {
    if key in m then m[key] else []
  }

  // ---------- The two limiters over it ----------

  /** requests_per_minute of every capability of a family in the registry. */
  function FamilyLimit(family: string): nat {
    match family
    case "CREATE" => 15
    case "TASK" => 5
    case "RESULTS" => 12
    case "QUOTA" => 10
    case _ => 0
  }

  predicate Registered(capability: Capability) {
    0 < capability.requestsPerMinute == FamilyLimit(capability.rateFamily)
  }

  class DispenserRateLimiter {
    var history: map<RateKey, seq<real>>
    ghost var grants: map<RateKey, seq<real>>
    ghost var clock: Option<real>

    constructor ()
      ensures Valid() && grants == map[] && clock == None
    {
      history, grants, clock := map[], map[], None;
      new;
      forall key: RateKey { NothingGranted(FamilyLimit(key.family), REPORT_WINDOW); }
    }

    /** No participant ever had more grants of a family in a minute than the family allows. */
    ghost predicate Valid()
      reads this
    {
      forall key :: KeyValid(At(history, key), At(grants, key), clock, FamilyLimit(key.family), REPORT_WINDOW)
    }

    method Consume(capability: Capability, scopeKey: string, now: real) returns (r: Result<Decision, RateError>)
      requires Valid() && Registered(capability) && (clock.Some? ==> clock.value <= now)
      modifies this
      ensures Valid()
      ensures r.Err? <==> !capability.enabled || scopeKey == ""
      ensures r.Err? ==> grants == old(grants) && history == old(history)
      ensures r.Ok? ==>
                var key := RateKey(scopeKey, capability.rateFamily);
                && clock == Some(now)
                && Exact(At(old(grants), key), now, r.value, capability.requestsPerMinute, REPORT_WINDOW)
                && grants == old(grants)[key := At(old(grants), key) + if r.value.allowed then [now] else []]
    {
      hide KeyValid, Exact;
      if !capability.enabled {
        var reason := capability.disabledReason;
        return Err(CapabilityDisabled(if reason == "" then "capability disabled" else reason));
      }
      if scopeKey == "" {
        return Err(ScopeKeyRequired);
      }
      var key := RateKey(scopeKey, capability.rateFamily);
      forall other {
        KeyValidLater(At(history, other), At(grants, other), clock, now, FamilyLimit(other.family), REPORT_WINDOW);
      }
      clock := Some(now);
      var d, kept := Slide(At(history, key), capability.requestsPerMinute, now, REPORT_WINDOW, At(grants, key));
      history := history[key := kept];
      grants := grants[key := At(grants, key) + if d.allowed then [now] else []];
      return Ok(d);
    }
  }

  class OzonClientIdRateLimiter {
    var history: map<string, seq<real>>
    ghost var grants: map<string, seq<real>>
    ghost var clock: Option<real>

    constructor ()
      ensures Valid() && grants == map[] && clock == None
    {
      history, grants, clock := map[], map[], None;
      new;
      NothingGranted(GLOBAL_OZON_LIMIT_RPS, OZON_WINDOW);
    }

    ghost predicate Valid()
      reads this
    {
      forall id :: KeyValid(At(history, id), At(grants, id), clock, GLOBAL_OZON_LIMIT_RPS, OZON_WINDOW)
    }

    method Consume(clientId: string, now: real) returns (r: Result<Decision, RateError>)
      requires Valid() && (clock.Some? ==> clock.value <= now)
      modifies this
      ensures Valid()
      ensures r.Err? <==> forall i :: 0 <= i < |clientId| ==> IsSpace(clientId[i])
      ensures r.Err? ==> grants == old(grants) && history == old(history)
      ensures r.Ok? ==>
                && clock == Some(now)
                && Exact(At(old(grants), clientId), now, r.value, GLOBAL_OZON_LIMIT_RPS, OZON_WINDOW)
                && grants == old(grants)[clientId := At(old(grants), clientId) + if r.value.allowed then [now] else []]
    {
      hide KeyValid, Exact;
      if forall i :: 0 <= i < |clientId| ==> IsSpace(clientId[i]) {
        return Err(ClientIdRequired);
      }
      forall id {
        KeyValidLater(At(history, id), At(grants, id), clock, now, GLOBAL_OZON_LIMIT_RPS, OZON_WINDOW);
      }
      clock := Some(now);
      ghost var queues, granted := history, grants;
      var d, kept := Slide(At(history, clientId), GLOBAL_OZON_LIMIT_RPS, now, OZON_WINDOW, At(grants, clientId));
      history := history[clientId := kept];
      grants := grants[clientId := At(grants, clientId) + if d.allowed then [now] else []];
      forall id ensures KeyValid(At(history, id), At(grants, id), clock, GLOBAL_OZON_LIMIT_RPS, OZON_WINDOW) {
        if id != clientId {
          assert At(history, id) == At(queues, id) && At(grants, id) == At(granted, id);
        }
      }
      return Ok(d);
    }
  }

  // ---------- The spacing limiter ----------

  ghost predicate SpacedBy(grants: seq<real>, interval: real) {
    forall i :: 0 <= i < |grants| - 1 ==> grants[i] + interval <= grants[i + 1]
  }

  /** How many grants lie in the half-open second [t, t + 1). */
  function InSecond(grants: seq<real>, t: real): nat {
    if grants == [] then 0
    else
      var last := grants[|grants| - 1];
      InSecond(grants[..|grants| - 1], t) + if t <= last < t + 1.0 then 1 else 0
  }

  /** x added to itself n times. */
  ghost function Times(n: nat, x: real): real {
    if n == 0 then 0.0 else Times(n - 1, x) + x
  }

  lemma {:induction false} TimesMonotone(m: nat, n: nat, x: real)
    requires m <= n && x >= 0.0
    ensures Times(m, x) <= Times(n, x)
    decreases n
  {
    if m < n {
      TimesMonotone(m, n - 1, x);
    }
  }

  lemma OneMoreTime(a: real, x: real)
    ensures (a + 1.0) * x == a * x + x
  {
  }

  lemma {:induction false} TimesIsProduct(n: nat, x: real)
    ensures Times(n, x) == n as real * x
  {
    if n > 0 {
      TimesIsProduct(n - 1, x);
      OneMoreTime((n - 1) as real, x);
      assert n as real == (n - 1) as real + 1.0;
    }
  }

  lemma IntervalsFillASecond(maxRps: nat)
    requires 0 < maxRps
    ensures Times(maxRps, 1.0 / maxRps as real) == 1.0
  {
    TimesIsProduct(maxRps, 1.0 / maxRps as real);
  }

  lemma {:induction false} SpacingAddsUp(grants: seq<real>, interval: real, i: nat, j: nat)
    requires SpacedBy(grants, interval) && i <= j < |grants|
    ensures grants[i] + Times(j - i, interval) <= grants[j]
    decreases j - i
  {
    if i < j {
      SpacingAddsUp(grants, interval, i, j - 1);
    }
  }

  /** The counted grants span at least as many places as there are of them. */
  lemma {:induction false} CountedSpan(grants: seq<real>, t: real) returns (i: nat, j: nat)
    requires InSecond(grants, t) > 0
    ensures i <= j < |grants| && InSecond(grants, t) <= j - i + 1
    ensures t <= grants[i] && grants[j] < t + 1.0
  {
    var n := |grants| - 1;
    var rest := grants[..n];
    if t <= grants[n] < t + 1.0 {
      if InSecond(rest, t) > 0 {
        var k;
        i, k := CountedSpan(rest, t);
      } else {
        i := n;
      }
      j := n;
    } else {
      i, j := CountedSpan(rest, t);
    }
  }

  /** Grants spaced 1/maxRps apart: no half-open second, wherever it starts, holds more than maxRps of them. */
  lemma SpacingCapsEverySecond(grants: seq<real>, maxRps: nat, t: real)
    requires 0 < maxRps && SpacedBy(grants, 1.0 / maxRps as real)
    ensures InSecond(grants, t) <= maxRps
  {
    if InSecond(grants, t) > maxRps {
      var i, j := CountedSpan(grants, t);
      var interval := 1.0 / maxRps as real;
      SpacingAddsUp(grants, interval, i, j);
      TimesMonotone(maxRps, j - i, interval);
      IntervalsFillASecond(maxRps);
    }
  }

  class SharedRateLimiter {
    const maxRps: nat
    const interval: real
    var nextAllowed: real
    ghost var grants: seq<real>

    constructor (maxRps: nat)
      requires 0 < maxRps
      ensures Valid() && this.maxRps == maxRps && grants == []
    {
      this.maxRps := maxRps;
      interval := 1.0 / maxRps as real;
      nextAllowed := 0.0;
      grants := [];
    }

    ghost predicate Valid()
      reads this
    {
      && 0 < maxRps && interval == 1.0 / maxRps as real
      && SpacedBy(grants, interval)
      && (grants != [] ==> nextAllowed == grants[|grants| - 1] + interval)
    }

    /** woke is the second clock reading, taken only after a sleep; the sleeper sleeps as asked. */
    method Acquire(now: real, woke: real) returns (slept: real, granted: real)
      requires Valid()
      requires now < nextAllowed ==> woke >= now + (nextAllowed - now)
      modifies this
      ensures Valid() && grants == old(grants) + [granted]
      ensures slept == if now < old(nextAllowed) then old(nextAllowed) - now else 0.0
      ensures granted == if slept > 0.0 then woke else now
      ensures forall t :: InSecond(grants, t) <= maxRps
    {
      slept := if nextAllowed - now > 0.0 then nextAllowed - now else 0.0;
      granted := now;
      if slept != 0.0 {
        granted := woke;
      }
      nextAllowed := (if nextAllowed < granted then granted else nextAllowed) + interval;
      grants := grants + [granted];
      forall t ensures InSecond(grants, t) <= maxRps {
        SpacingCapsEverySecond(grants, maxRps, t);
      }
    }
  }
}

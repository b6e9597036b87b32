/**
 * The two windowed limiters: the API limiter with its sweeper (server/middleware/apiRateLimit.js)
 * and the per-agent A2A budget (overBudget of server/routes/a2a.js). Times are Date.now() values.
 */
module RateLimit {
  import opened Text

  datatype Bucket = Bucket(count: nat, resetAt: int)

  type Buckets = map<string, Bucket>

  // ---- keys --------------------------------------------------------------------------------------------

  datatype Kind = Authed | Ip | Verify

  /** A request's credentials as the limiter extracts them, its client address and its path. */
  datatype Request = Request(bearer: string, apiKey: string, ip: string, path: string)

  function RateLimitKey(hash: string -> string, req: Request): (string, Kind) {
    if req.bearer != "" then ("t:" + hash(req.bearer), Authed)
    else if req.apiKey != "" then ("k:" + hash(req.apiKey), Authed)
    else if req.path == "/identity/verify" then ("v:" + req.ip, Verify)
    else ("ip:" + req.ip, Ip)
  }

  /** The credential a request is counted by: the bearer token first, then the API key. */
  predicate CountedByBearer(req: Request) {
    req.bearer != ""
  }

  predicate CountedByApiKey(req: Request) {
    req.bearer == "" && req.apiKey != ""
  }

  /**
   * Two requests share a bucket if and only if they carry the same kind of credential with the same
   * hash, or no credential, the same address and both or neither are session checks.
   */
  lemma SameBucketIff(hash: string -> string, a: Request, b: Request)
    ensures RateLimitKey(hash, a).0 == RateLimitKey(hash, b).0 <==>
      || (CountedByBearer(a) && CountedByBearer(b) && hash(a.bearer) == hash(b.bearer))
      || (CountedByApiKey(a) && CountedByApiKey(b) && hash(a.apiKey) == hash(b.apiKey))
      || (a.bearer == b.bearer == "" && a.apiKey == b.apiKey == "" && a.ip == b.ip
          && (a.path == "/identity/verify" <==> b.path == "/identity/verify"))
    ensures RateLimitKey(hash, a).1 ==
      if a.bearer != "" || a.apiKey != "" then Authed else if a.path == "/identity/verify" then Verify else Ip
  {
    var x, y := RateLimitKey(hash, a).0, RateLimitKey(hash, b).0;
    if x == y {
      assert x[0] == y[0];
      assert x[2..] == y[2..];
      if CountedByBearer(a) { assert x[2..] == hash(a.bearer) && y[2..] == hash(b.bearer); }
      else if CountedByApiKey(a) { assert x[2..] == hash(a.apiKey) && y[2..] == hash(b.apiKey); }
      else { KeyFixesKind(hash, a, b); }
    }
  }

  /** One bucket never mixes limits: a key fixes its kind. */
  lemma KeyFixesKind(hash: string -> string, a: Request, b: Request)
    requires RateLimitKey(hash, a).0 == RateLimitKey(hash, b).0
    ensures RateLimitKey(hash, a).1 == RateLimitKey(hash, b).1
    ensures a.bearer == "" && b.bearer == "" && a.apiKey == "" && b.apiKey == "" ==> a.ip == b.ip
  {
    var x, y := RateLimitKey(hash, a).0, RateLimitKey(hash, b).0;
    assert x[0] == y[0];
    if a.bearer == "" && b.bearer == "" && a.apiKey == "" && b.apiKey == "" {
      var skip := if a.path == "/identity/verify" then 2 else 3;
      assert x[skip..] == a.ip && y[skip..] == b.ip;
    }
  }

  // ---- one key on its own --------------------------------------------------------------------------------

  predicate Admits(b: Option<Bucket>, limit: nat, now: int) {
    b == None || now > b.value.resetAt || b.value.count < limit
  }

  function Hit(b: Option<Bucket>, limit: nat, windowMs: nat, now: int): Bucket {
    if b == None || now > b.value.resetAt then Bucket(1, now + windowMs)
    else if b.value.count >= limit then b.value
    else b.value.(count := b.value.count + 1)
  }

  /** The bucket after these requests, never swept. */
  function After(times: seq<int>, limit: nat, windowMs: nat): Option<Bucket> {
    if times == [] then None
    else Some(Hit(After(times[..|times| - 1], limit, windowMs), limit, windowMs, times[|times| - 1]))
  }

  predicate AdmitsNext(times: seq<int>, limit: nat, windowMs: nat, now: int) {
    Admits(After(times, limit, windowMs), limit, now)
  }

  /** Admitted requests with a time in [lo, hi]. */
  function Admitted(times: seq<int>, limit: nat, windowMs: nat, lo: int, hi: int): nat {
    if times == [] then 0
    else
      var front, now := times[..|times| - 1], times[|times| - 1];
      Admitted(front, limit, windowMs, lo, hi) + if lo <= now <= hi && AdmitsNext(front, limit, windowMs, now) then 1 else 0
  }

  function Requested(times: seq<int>, lo: int): nat {
    if times == [] then 0
    else Requested(times[..|times| - 1], lo) + if lo <= times[|times| - 1] then 1 else 0
  }

  ghost predicate NonDecreasing(times: seq<int>) {
    forall i, j | 0 <= i < j < |times| :: times[i] <= times[j]
  }

  function Min(a: nat, b: nat): nat {
    if a < b then a else b
  }

  lemma {:induction false} AdmittedSplits(times: seq<int>, limit: nat, windowMs: nat, lo: int, mid: int, hi: int)
    requires lo <= mid <= hi + 1
    ensures Admitted(times, limit, windowMs, lo, hi)
         == Admitted(times, limit, windowMs, lo, mid - 1) + Admitted(times, limit, windowMs, mid, hi)
  {
    if times != [] { AdmittedSplits(times[..|times| - 1], limit, windowMs, lo, mid, hi); }
  }

  lemma {:induction false} AdmittedGrows(times: seq<int>, limit: nat, windowMs: nat, lo: int, hi: int, lo': int, hi': int)
    requires lo' <= lo && hi <= hi'
    ensures Admitted(times, limit, windowMs, lo, hi) <= Admitted(times, limit, windowMs, lo', hi')
  {
    if times != [] { AdmittedGrows(times[..|times| - 1], limit, windowMs, lo, hi, lo', hi'); }
  }

  lemma {:induction false} NoneSinceLater(times: seq<int>, limit: nat, windowMs: nat, lo: int, hi: int)
    requires forall i | 0 <= i < |times| :: times[i] < lo
    ensures Admitted(times, limit, windowMs, lo, hi) == 0 && Requested(times, lo) == 0
  {
    if times != [] { NoneSinceLater(times[..|times| - 1], limit, windowMs, lo, hi); }
  }

  /**
   * The current window [start, start + windowMs]: it holds every later request so far, and of the n
   * requests in it exactly min(n, limit) were admitted, which is what the bucket counts.
   */
  lemma {:induction false} CurrentWindow(times: seq<int>, limit: nat, windowMs: nat, hi: int)
    requires times != [] && NonDecreasing(times) && limit > 0 && hi >= times[|times| - 1]
    ensures var b := After(times, limit, windowMs).value;
            var start := b.resetAt - windowMs;
            && start <= times[|times| - 1] <= b.resetAt
            && 1 <= b.count <= limit
            && Admitted(times, limit, windowMs, start, hi) == b.count == Min(Requested(times, start), limit)
            && Admitted(times, limit, windowMs, start, start) >= 1
  {
    var front, now := times[..|times| - 1], times[|times| - 1];
    if front == [] {
      NoneSinceLater(front, limit, windowMs, now, hi);
    } else {
      CurrentWindow(front, limit, windowMs, hi);
      var b := After(front, limit, windowMs).value;
      if now > b.resetAt { NoneSinceLater(front, limit, windowMs, now, hi); }
    }
  }

  /** A request is refused only when its window has already admitted `limit`. */
  lemma RefusedOnlyAtLimit(times: seq<int>, limit: nat, windowMs: nat, now: int)
    requires NonDecreasing(times) && limit > 0 && (times != [] ==> times[|times| - 1] <= now)
    requires !AdmitsNext(times, limit, windowMs, now)
    ensures times != []
    ensures var b := After(times, limit, windowMs).value;
            now <= b.resetAt && Admitted(times, limit, windowMs, b.resetAt - windowMs, now) == limit
  {
    CurrentWindow(times, limit, windowMs, now);
  }

  /** Within one window length before the current window, less than `limit` were admitted. */
  lemma {:induction false} PreviousWindow(times: seq<int>, limit: nat, windowMs: nat, lo: int)
    requires times != [] && NonDecreasing(times) && limit > 0
    requires lo >= After(times, limit, windowMs).value.resetAt - 2 * windowMs
    ensures Admitted(times, limit, windowMs, lo, After(times, limit, windowMs).value.resetAt - windowMs - 1) < limit
  {
    var front, now := times[..|times| - 1], times[|times| - 1];
    CurrentWindow(times, limit, windowMs, now);
    if front != [] {
      var last := After(front, limit, windowMs).value;
      if now > last.resetAt {
        var start := last.resetAt - windowMs;
        CurrentWindow(front, limit, windowMs, now - 1);
        AdmittedSplits(front, limit, windowMs, start, start + 1, now - 1);
        AdmittedGrows(front, limit, windowMs, lo, now - 1, start + 1, now - 1);
      } else {
        PreviousWindow(front, limit, windowMs, lo);
      }
    }
  }

  /** Less than twice the limit is admitted in any closed interval of one window length. */
  lemma {:induction false} LessThanTwiceTheLimit(times: seq<int>, limit: nat, windowMs: nat, lo: int)
    requires NonDecreasing(times) && limit > 0
    ensures Admitted(times, limit, windowMs, lo, lo + windowMs) < 2 * limit
  {
    if times != [] {
      var now, hi := times[|times| - 1], lo + windowMs;
      var start := After(times, limit, windowMs).value.resetAt - windowMs;
      CurrentWindow(times, limit, windowMs, if hi < now then now else hi);
      if hi < start {
        LessThanTwiceTheLimit(times[..|times| - 1], limit, windowMs, lo);
      } else if lo >= start {
        AdmittedGrows(times, limit, windowMs, lo, hi, start, if hi < now then now else hi);
      } else {
        PreviousWindow(times, limit, windowMs, lo);
        AdmittedSplits(times, limit, windowMs, lo, start, hi);
        AdmittedGrows(times, limit, windowMs, start, hi, start, if hi < now then now else hi);
      }
    }
  }

  /** No smaller bound holds: all but the first request of one window, then a full next window. */
  lemma TheBoundIsMet()
    ensures NonDecreasing([0, 100, 101, 101]) && Admitted([0, 100, 101, 101], 2, 100, 1, 1 + 100) == 2 * 2 - 1
  {
    var times := [0, 100, 101, 101];
    assert times[..3] == [0, 100, 101] && times[..3][..2] == [0, 100] && [0, 100][..1] == [0] && [0][..0] == [];
    assert After([0], 2, 100) == Some(Bucket(1, 100)) && After([0, 100], 2, 100) == Some(Bucket(2, 100));
  }

  // ---- many keys, and sweeps -------------------------------------------------------------------------------

  datatype Event = Call(key: string, now: int) | Sweep(now: int)

  function Lookup(buckets: Buckets, key: string): Option<Bucket> {
    if key in buckets then Some(buckets[key]) else None
  }

  function Swept(buckets: Buckets, now: int): Buckets {
    map k | k in buckets && !(now > buckets[k].resetAt) :: buckets[k]
  }

  function Handle(buckets: Buckets, e: Event, limitOf: string -> nat, windowMs: nat): Buckets {
    match e
    case Call(key, now) => buckets[key := Hit(Lookup(buckets, key), limitOf(key), windowMs, now)]
    case Sweep(now) => Swept(buckets, now)
  }

  function State(es: seq<Event>, limitOf: string -> nat, windowMs: nat): Buckets {
    if es == [] then map[] else Handle(State(es[..|es| - 1], limitOf, windowMs), es[|es| - 1], limitOf, windowMs)
  }

  function AdmittedOf(es: seq<Event>, limitOf: string -> nat, windowMs: nat, key: string, lo: int, hi: int): nat {
    if es == [] then 0
    else
      var front, e := es[..|es| - 1], es[|es| - 1];
      AdmittedOf(front, limitOf, windowMs, key, lo, hi)
      + if e.Call? && e.key == key && lo <= e.now <= hi
           && Admits(Lookup(State(front, limitOf, windowMs), key), limitOf(key), e.now) then 1 else 0
  }

  function TimesOf(es: seq<Event>, key: string): seq<int> {
    if es == [] then []
    else
      var e := es[|es| - 1];
      TimesOf(es[..|es| - 1], key) + if e.Call? && e.key == key then [e.now] else []
  }

  ghost predicate Clock(es: seq<Event>) {
    forall i, j | 0 <= i < j < |es| :: es[i].now <= es[j].now
  }

  lemma {:induction false} TimesFollowClock(es: seq<Event>, key: string)
    requires Clock(es)
    ensures NonDecreasing(TimesOf(es, key))
    ensures forall i | 0 <= i < |TimesOf(es, key)| :: es != [] && TimesOf(es, key)[i] <= es[|es| - 1].now
  {
    if es != [] {
      var front := es[..|es| - 1];
      TimesFollowClock(front, key);
      assert front != [] ==> front[|front| - 1].now <= es[|es| - 1].now;
    }
  }

  /** The shared map's bucket is the lone one, or it was swept when the lone one had run out. */
  ghost predicate Follows(shared: Option<Bucket>, alone: Option<Bucket>, now: int) {
    shared == alone || (shared == None && alone != None && now > alone.value.resetAt)
  }

  lemma EventFollows(
    buckets: Buckets, alone: Option<Bucket>, e: Event, limitOf: string -> nat, windowMs: nat, key: string)
    requires Follows(Lookup(buckets, key), alone, e.now)
    ensures var next := if e.Call? && e.key == key then Some(Hit(alone, limitOf(key), windowMs, e.now)) else alone;
            Follows(Lookup(Handle(buckets, e, limitOf, windowMs), key), next, e.now)
  {
  }

  lemma TimesOfLast(front: seq<Event>, e: Event, key: string)
    ensures e.Call? && e.key == key ==>
      TimesOf(front + [e], key)[..|TimesOf(front + [e], key)| - 1] == TimesOf(front, key)
      && TimesOf(front + [e], key) == TimesOf(front, key) + [e.now]
    ensures !(e.Call? && e.key == key) ==> TimesOf(front + [e], key) == TimesOf(front, key)
    ensures (front + [e])[..|front + [e]| - 1] == front
  {
    assert (front + [e])[..|front|] == front;
  }

  lemma AfterLast(front: seq<Event>, e: Event, limit: nat, windowMs: nat, key: string)
    ensures After(TimesOf(front + [e], key), limit, windowMs) ==
      if e.Call? && e.key == key then Some(Hit(After(TimesOf(front, key), limit, windowMs), limit, windowMs, e.now))
      else After(TimesOf(front, key), limit, windowMs)
  {
    TimesOfLast(front, e, key);
  }

  lemma ClockBefore(front: seq<Event>, e: Event)
    requires Clock(front + [e])
    ensures Clock(front) && (front != [] ==> front[|front| - 1].now <= e.now)
  {
    var es := front + [e];
    assert forall i | 0 <= i < |front| :: es[i] == front[i];
    assert es[|front|] == e;
  }

  lemma StateLast(front: seq<Event>, e: Event, limitOf: string -> nat, windowMs: nat)
    ensures State(front + [e], limitOf, windowMs) == Handle(State(front, limitOf, windowMs), e, limitOf, windowMs)
  {
    assert (front + [e])[..|front|] == front;
  }

  lemma SweptFollowsLast(front: seq<Event>, e: Event, limitOf: string -> nat, windowMs: nat, key: string)
    requires Follows(Lookup(State(front, limitOf, windowMs), key), After(TimesOf(front, key), limitOf(key), windowMs), e.now)
    ensures Follows(
      Lookup(State(front + [e], limitOf, windowMs), key), After(TimesOf(front + [e], key), limitOf(key), windowMs), e.now)
  {
    StateLast(front, e, limitOf, windowMs);
    AfterLast(front, e, limitOf(key), windowMs, key);
    var alone := After(TimesOf(front, key), limitOf(key), windowMs);
    EventFollows(State(front, limitOf, windowMs), alone, e, limitOf, windowMs, key);
  }

  lemma {:induction false} SweptFollows(es: seq<Event>, limitOf: string -> nat, windowMs: nat, key: string, now: int)
    requires Clock(es) && (es != [] ==> es[|es| - 1].now <= now)
    ensures Follows(Lookup(State(es, limitOf, windowMs), key), After(TimesOf(es, key), limitOf(key), windowMs), now)
  {
    if es != [] {
      var front, e := es[..|es| - 1], es[|es| - 1];
      assert es == front + [e];
      ClockBefore(front, e);
      SweptFollows(front, limitOf, windowMs, key, e.now);
      SweptFollowsLast(front, e, limitOf, windowMs, key);
    }
  }

  /** Swept or not, shared map or not, a key's bucket decides like one that is never swept. */
  lemma SweepsAndOthersDoNotMatter(
    es: seq<Event>, limitOf: string -> nat, windowMs: nat, key: string, now: int)
    requires Clock(es) && (es != [] ==> es[|es| - 1].now <= now)
    ensures Admits(Lookup(State(es, limitOf, windowMs), key), limitOf(key), now)
         == AdmitsNext(TimesOf(es, key), limitOf(key), windowMs, now)
  {
    SweptFollows(es, limitOf, windowMs, key, now);
  }

  lemma AdmittedLast(front: seq<Event>, e: Event, limit: nat, windowMs: nat, key: string, lo: int, hi: int)
    ensures Admitted(TimesOf(front + [e], key), limit, windowMs, lo, hi) ==
      Admitted(TimesOf(front, key), limit, windowMs, lo, hi)
      + if e.Call? && e.key == key && lo <= e.now <= hi && AdmitsNext(TimesOf(front, key), limit, windowMs, e.now) then 1 else 0
  {
    TimesOfLast(front, e, key);
  }

  lemma AdmittedOfLast(front: seq<Event>, e: Event, limitOf: string -> nat, windowMs: nat, key: string, lo: int, hi: int)
    ensures AdmittedOf(front + [e], limitOf, windowMs, key, lo, hi) ==
      AdmittedOf(front, limitOf, windowMs, key, lo, hi)
      + if e.Call? && e.key == key && lo <= e.now <= hi
           && Admits(Lookup(State(front, limitOf, windowMs), key), limitOf(key), e.now) then 1 else 0
  {
    assert (front + [e])[..|front|] == front;
  }

  lemma AdmittedStep(front: seq<Event>, e: Event, limitOf: string -> nat, windowMs: nat, key: string, lo: int, hi: int)
    requires AdmittedOf(front, limitOf, windowMs, key, lo, hi) == Admitted(TimesOf(front, key), limitOf(key), windowMs, lo, hi)
    requires Clock(front + [e])
    ensures AdmittedOf(front + [e], limitOf, windowMs, key, lo, hi)
         == Admitted(TimesOf(front + [e], key), limitOf(key), windowMs, lo, hi)
  {
    ClockBefore(front, e);
    SweepsAndOthersDoNotMatter(front, limitOf, windowMs, key, e.now);
    AdmittedOfLast(front, e, limitOf, windowMs, key, lo, hi);
    AdmittedLast(front, e, limitOf(key), windowMs, key, lo, hi);
  }

  lemma {:induction false} AdmittedOfIsAdmitted(
    es: seq<Event>, limitOf: string -> nat, windowMs: nat, key: string, lo: int, hi: int)
    requires Clock(es)
    ensures AdmittedOf(es, limitOf, windowMs, key, lo, hi) == Admitted(TimesOf(es, key), limitOf(key), windowMs, lo, hi)
  {
    if es != [] {
      var front, e := es[..|es| - 1], es[|es| - 1];
      assert es == front + [e];
      ClockBefore(front, e);
      AdmittedOfIsAdmitted(front, limitOf, windowMs, key, lo, hi);
      AdmittedStep(front, e, limitOf, windowMs, key, lo, hi);
    }
  }

  /** The API limiter, over any traffic on any keys with sweeps at any moments. */
  lemma LimiterBound(es: seq<Event>, limitOf: string -> nat, windowMs: nat, key: string, lo: int)
    requires Clock(es) && limitOf(key) > 0
    ensures AdmittedOf(es, limitOf, windowMs, key, lo, lo + windowMs) < 2 * limitOf(key)
  {
    TimesFollowClock(es, key);
    AdmittedOfIsAdmitted(es, limitOf, windowMs, key, lo, lo + windowMs);
    LessThanTwiceTheLimit(TimesOf(es, key), limitOf(key), windowMs, lo);
  }

  // ---- the A2A budget -----------------------------------------------------------------------------------------

  const REQUESTS_PER_MINUTE := 600
  const BUDGET_WINDOW_MS := 60_000

  /** overBudget's record: it counts refused requests too. */
  datatype Window = Window(start: int, n: nat)

  function Budget(times: seq<int>): Option<Window> {
    if times == [] then None
    else
      var w, now := Budget(times[..|times| - 1]), times[|times| - 1];
      if w == None || now - w.value.start >= BUDGET_WINDOW_MS then Some(Window(now, 1))
      else Some(w.value.(n := w.value.n + 1))
  }

  predicate OverBudget(w: Option<Window>, now: int) {
    w != None && now - w.value.start < BUDGET_WINDOW_MS && w.value.n + 1 > REQUESTS_PER_MINUTE
  }

  function BudgetAdmitted(times: seq<int>, lo: int, hi: int): nat {
    if times == [] then 0
    else
      var front, now := times[..|times| - 1], times[|times| - 1];
      BudgetAdmitted(front, lo, hi) + if lo <= now <= hi && !OverBudget(Budget(front), now) then 1 else 0
  }

  /**
   * The budget decides exactly like the other limiter with a window one millisecond shorter,
   * although it also counts what it refuses.
   */
  lemma {:induction false} BudgetIsALimiter(times: seq<int>, now: int, lo: int, hi: int)
    ensures var b := After(times, REQUESTS_PER_MINUTE, BUDGET_WINDOW_MS - 1);
            && (b == None <==> Budget(times) == None)
            && (b != None ==>
                  && b.value.resetAt == Budget(times).value.start + BUDGET_WINDOW_MS - 1
                  && b.value.count == Min(Budget(times).value.n, REQUESTS_PER_MINUTE))
            && (OverBudget(Budget(times), now) <==> !Admits(b, REQUESTS_PER_MINUTE, now))
            && BudgetAdmitted(times, lo, hi) == Admitted(times, REQUESTS_PER_MINUTE, BUDGET_WINDOW_MS - 1, lo, hi)
  {
    if times != [] { BudgetIsALimiter(times[..|times| - 1], times[|times| - 1], lo, hi); }
  }

  /** At most 1199 in any half-open minute, and min(n, 600) of the n requests in a window. */
  lemma BudgetBound(times: seq<int>, lo: int)
    requires NonDecreasing(times)
    ensures BudgetAdmitted(times, lo, lo + 59_999) <= 1199
    ensures times != [] ==>
      var w := Budget(times).value;
      BudgetAdmitted(times, w.start, times[|times| - 1]) == Min(Requested(times, w.start), 600)
  {
    LessThanTwiceTheLimit(times, REQUESTS_PER_MINUTE, BUDGET_WINDOW_MS - 1, lo);
    BudgetIsALimiter(times, 0, lo, lo + BUDGET_WINDOW_MS - 1);
    if times != [] {
      CurrentWindow(times, REQUESTS_PER_MINUTE, BUDGET_WINDOW_MS - 1, times[|times| - 1]);
      BudgetIsALimiter(times, 0, Budget(times).value.start, times[|times| - 1]);
    }
  }

  // ---- the code -----------------------------------------------------------------------------------------------

  class ApiRateLimit {
    var buckets: Buckets
    const windowMs: nat

    constructor (windowMs: nat)
      ensures buckets == map[] && this.windowMs == windowMs
    {
      this.buckets, this.windowMs := map[], windowMs;
    }

    method Handle(key: string, limit: nat, now: int) returns (admitted: bool)
      modifies this`buckets
      ensures admitted == Admits(Lookup(old(buckets), key), limit, now)
      ensures buckets == old(buckets)[key := Hit(Lookup(old(buckets), key), limit, windowMs, now)]
    {
      if key !in buckets || now > buckets[key].resetAt {
        buckets := buckets[key := Bucket(1, now + windowMs)];
        return true;
      }
      if buckets[key].count >= limit {
        assert buckets == buckets[key := buckets[key]];
        return false;
      }
      buckets := buckets[key := buckets[key].(count := buckets[key].count + 1)];
      return true;
    }

    method SweepAt(now: int)
      modifies this`buckets
      ensures buckets == Swept(old(buckets), now)
      ensures forall k | k in buckets :: now <= buckets[k].resetAt
      ensures forall k | k in old(buckets) && now <= old(buckets)[k].resetAt :: k in buckets && buckets[k] == old(buckets)[k]
    {
      var keys := buckets.Keys;
      while keys != {}
        invariant keys <= old(buckets).Keys
        invariant forall k :: k in buckets <==>
          k in old(buckets) && (k in keys || !(now > old(buckets)[k].resetAt))
        invariant forall k | k in buckets :: buckets[k] == old(buckets)[k]
        decreases keys
      {
        var k :| k in keys;
        if now > buckets[k].resetAt { buckets := buckets - {k}; }
        keys := keys - {k};
      }
    }
  }

  class AgentBudget {
    var windows: map<nat, Window>

    constructor ()
      ensures windows == map[]
    {
      windows := map[];
    }

    /** `times` are this agent's earlier requests. */
    method Charge(agent: nat, now: int, ghost times: seq<int>) returns (over: bool)
      requires Budget(times) == if agent in windows then Some(windows[agent]) else None
      modifies this
      ensures over == OverBudget(Budget(times), now)
      ensures agent in windows && Budget(times + [now]) == Some(windows[agent])
      ensures windows == old(windows)[agent := windows[agent]]
    {
      assert (times + [now])[..|times|] == times;
      if agent !in windows || now - windows[agent].start >= BUDGET_WINDOW_MS {
        windows := windows[agent := Window(now, 1)];
        return false;
      }
      windows := windows[agent := windows[agent].(n := windows[agent].n + 1)];
      return windows[agent].n > REQUESTS_PER_MINUTE;
    }
  }
}

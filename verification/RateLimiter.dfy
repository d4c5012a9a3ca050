/**
  The login rate limiter: a token bucket per key, kept in Redis and changed by one atomic script. Tokens are taken from
  the stored count, but the refill is only computed from the age of the key and never stored.

  Time runs in ticks, `ticks` of them per second: EXPIRE takes whole seconds, and TTL answers with the remaining life
  rounded to the nearest second. With one tick per second the answer is exact.
 */
module RateLimiter {
  import opened Wrappers
  import opened Collections

  function Ceiling(x: int, d: int): int
    requires 0 < d
  {
    (x + d - 1) / d
  }

  /** A Redis key; without `expiresAt` it lives until it is overwritten. */
  datatype Bucket = Bucket(tokens: int, expiresAt: Option<int>)

  datatype Config = Config(limit: int, window: int, ticks: int) {
    ghost predicate Valid() { 0 < window && 0 < ticks }

    function Span(): int { window * ticks }

    // how far the rounding of TTL can make a key look older than it is
    function Slack(): int
      requires 0 < ticks
    {
      ticks - 1 - ticks / 2
    }

    /** The least age at which a live key that is `k` tokens short of one lets a request pass. */
    function MinWait(k: int): int
      requires 0 < limit && 0 < window && 0 < ticks
    {
      Ceiling(k * window, limit) * ticks - Slack()
    }

    function Ttl(b: Bucket, now: int): int
      requires 0 < ticks
    {
      if b.expiresAt.None? then -1 else (b.expiresAt.value - now + ticks / 2) / ticks
    }

    function Visible(b: Option<Bucket>, now: int): Option<Bucket> {
      if b.Some? && b.value.expiresAt.Some? && b.value.expiresAt.value <= now then None else b
    }

    function NewTokens(tokens: int, timePassed: int): real
      requires 0 < window
    {
      var refilled := tokens as real + timePassed as real * (limit as real / window as real);
      if refilled < limit as real then refilled else limit as real
    }

    /** The script: whether the request is allowed, and the key afterwards. */
    function Consumed(b: Option<Bucket>, now: int): (bool, Option<Bucket>)
      requires 0 < window && 0 < ticks
    {
      var bucket := match Visible(b, now) case None => Bucket(limit, None) case Some(bucket) => bucket;
      var ttl := if Visible(b, now).None? then window else Ttl(bucket, now);
      if NewTokens(bucket.tokens, window - ttl) < 1.0 then (false, Some(bucket))
      else (true, Some(Bucket(bucket.tokens - 1, Some(now + Span()))))
    }
  }

  class LoginRateLimiter {
    const config: Config
    var buckets: map<string, Bucket>

    constructor (limit: int, window: int, ticks: int)
      ensures config == Config(limit, window, ticks) && buckets == map[]
    {
      config := Config(limit, window, ticks);
      buckets := map[];
    }

    method Consume(key: string, now: int) returns (allowed: bool)
      requires config.Valid()
      modifies this
      ensures var before := if key in old(buckets) then Some(old(buckets)[key]) else None;
              && allowed == config.Consumed(before, now).0
              && key in buckets && Some(buckets[key]) == config.Consumed(before, now).1
      ensures buckets - {key} == old(buckets) - {key}
    {
      if key in buckets && buckets[key].expiresAt.Some? && buckets[key].expiresAt.value <= now {
        buckets := buckets - {key};
      }
      var ttl, tokens := config.window, config.limit;
      if key !in buckets {
        buckets := buckets[key := Bucket(config.limit, None)];
      } else {
        ttl := config.Ttl(buckets[key], now);
        tokens := buckets[key].tokens;
      }
      var timePassed := config.window - ttl;
      if config.NewTokens(tokens, timePassed) < 1.0 {
        return false;
      }
      buckets := buckets[key := buckets[key].(tokens := buckets[key].tokens - 1)];
      buckets := buckets[key := buckets[key].(expiresAt := Some(now + config.Span()))];
      return true;
    }
  }

  /** The remaining life of a key is reported to the nearest second, and as minus one when it has no end. */
  lemma TtlIsNearestSecond(c: Config, b: Bucket, now: int)
    requires c.Valid()
    ensures if b.expiresAt.None? then c.Ttl(b, now) == -1
            else var error := c.Ttl(b, now) * c.ticks - (b.expiresAt.value - now); -c.ticks < 2 * error <= c.ticks
  {
    if b.expiresAt.Some? {
      var x := b.expiresAt.value - now + c.ticks / 2;
      assert x == c.ticks * (x / c.ticks) + x % c.ticks;
    }
  }

  // ----- runs: the requests for one key

  ghost predicate Monotone(times: seq<int>) {
    forall i, j :: 0 <= i <= j < |times| ==> times[i] <= times[j]
  }

  function After(c: Config, b: Option<Bucket>, times: seq<int>): Option<Bucket>
    requires c.Valid()
  {
    if times == [] then b
    else c.Consumed(After(c, b, times[..|times| - 1]), times[|times| - 1]).1
  }

  function Allowed(c: Config, b: Option<Bucket>, times: seq<int>): seq<int>
    requires c.Valid()
  {
    if times == [] then []
    else
      var front, now := times[..|times| - 1], times[|times| - 1];
      Allowed(c, b, front) + if c.Consumed(After(c, b, front), now).0 then [now] else []
  }

  lemma AppendRequest(c: Config, b: Option<Bucket>, times: seq<int>, now: int)
    requires c.Valid()
    ensures After(c, b, times + [now]) == c.Consumed(After(c, b, times), now).1
    ensures Allowed(c, b, times + [now])
         == if c.Consumed(After(c, b, times), now).0 then Allowed(c, b, times) + [now] else Allowed(c, b, times)
  {
    assert (times + [now])[..|times|] == times;
  }

  // ----- one request

  lemma NewTokensExactly(c: Config, tokens: int, timePassed: int)
    requires c.Valid()
    ensures c.NewTokens(tokens, timePassed) >= 1.0
       <==> 1 <= c.limit && c.window <= tokens * c.window + timePassed * c.limit
  {
    var refilled := tokens as real + timePassed as real * (c.limit as real / c.window as real);
    RefillScaled(c.limit, c.window, tokens, timePassed);
    AtLeast(refilled, 1.0, c.window as real);
  }

  lemma RefillScaled(limit: int, window: int, tokens: int, timePassed: int)
    requires 0 < window
    ensures (tokens as real + timePassed as real * (limit as real / window as real)) * window as real
         == (tokens * window + timePassed * limit) as real
  {
    var rate := limit as real / window as real;
    assert rate * window as real == limit as real;
    assert timePassed as real * rate * window as real == timePassed as real * (rate * window as real);
    assert timePassed as real * limit as real == (timePassed * limit) as real;
    assert tokens as real * window as real == (tokens * window) as real;
  }

  lemma AtLeast(x: real, y: real, k: real)
    requires 0.0 < k
    ensures x >= y <==> x * k >= y * k
  {
  }

  /** A key that has been used: it expires, and its age is at most the window. */
  ghost predicate Used(c: Config, b: Option<Bucket>, last: int) {
    b.Some? && b.value.expiresAt == Some(last + c.Span()) && b.value.tokens < c.limit
  }

  lemma QuotientAtMost(x: int, d: int, y: int)
    requires 0 < d
    ensures x / d <= y <==> x < y * d + d
  {
    if x / d <= y {
      ScaleUp(x / d, y, d);
    } else {
      ScaleUp(y + 1, x / d, d);
    }
  }

  lemma CeilingAtMost(x: int, d: int, y: int)
    requires 0 < d
    ensures Ceiling(x, d) <= y <==> x <= y * d
  {
    QuotientAtMost(x + d - 1, d, y);
  }

  /** How the age of a live key enters the script: rounded to seconds. */
  lemma TimePassed(c: Config, b: Bucket, last: int, now: int, seconds: int)
    requires c.Valid() && Used(c, Some(b), last)
    ensures seconds <= c.window - c.Ttl(b, now) <==> seconds * c.ticks - c.Slack() <= now - last
  {
    QuotientAtMost(last + c.Span() - now + c.ticks / 2, c.ticks, c.window - seconds);
    assert (c.window - seconds) * c.ticks == c.Span() - seconds * c.ticks;
  }

  /** The script in ticks: as long as the key lives, a request passes exactly when a token is stored or the key is old
      enough for the one that is missing. */
  lemma AllowedExactly(c: Config, b: Option<Bucket>, last: int, now: int)
    requires c.Valid() && 1 <= c.limit && Used(c, b, last) && last <= now < last + c.Span()
    ensures c.Consumed(b, now).0 <==> 1 <= b.value.tokens || c.MinWait(1 - b.value.tokens) <= now - last
  {
    var x, passed := b.value.tokens, c.window - c.Ttl(b.value, now);
    NewTokensExactly(c, x, passed);
    TimePassed(c, b.value, last, now, 0);
    EnoughTokens(c.limit, c.window, x, passed);
    TimePassed(c, b.value, last, now, Ceiling((1 - x) * c.window, c.limit));
  }

  lemma EnoughTokens(limit: int, window: int, tokens: int, passed: int)
    requires 0 < limit && 0 < window && 0 <= passed
    ensures window <= tokens * window + passed * limit
       <==> 1 <= tokens || Ceiling((1 - tokens) * window, limit) <= passed
  {
    if 1 <= tokens {
      ScaleUp(1, tokens, window);
      ScaleUp(0, passed, limit);
    } else {
      CeilingAtMost((1 - tokens) * window, limit, passed);
      assert (1 - tokens) * window == window - tokens * window;
    }
  }

  lemma NextPasses(c: Config, tokens: int, last: int, now: int)
    requires c.Valid() && 1 <= c.limit && tokens < c.limit && last <= now < last + c.Span()
    requires 1 <= tokens || c.MinWait(1 - tokens) <= now - last
    ensures var b := Some(Bucket(tokens, Some(last + c.Span())));
            c.Consumed(b, now) == (true, Some(Bucket(tokens - 1, Some(now + c.Span()))))
  {
    AllowedExactly(c, Some(Bucket(tokens, Some(last + c.Span()))), last, now);
  }

  /** A denial changes nothing, an acceptance takes one token from a live key and creates an expired one anew. */
  lemma OneRequest(c: Config, b: Option<Bucket>, last: int, now: int)
    requires c.Valid() && 1 <= c.limit && Used(c, b, last) && last <= now
    ensures !c.Consumed(b, now).0 ==> c.Consumed(b, now).1 == b && now < last + c.Span()
    ensures c.Consumed(b, now).0 ==> Used(c, c.Consumed(b, now).1, now)
    ensures c.Consumed(b, now).0 && now < last + c.Span() ==>
              && c.Consumed(b, now).1.value.tokens == b.value.tokens - 1
              && (1 <= b.value.tokens || c.MinWait(1 - b.value.tokens) <= now - last)
    ensures c.Consumed(b, now).0 && last + c.Span() <= now ==> c.Consumed(b, now).1.value.tokens == c.limit - 1
  {
    if now < last + c.Span() {
      AllowedExactly(c, b, last, now);
    } else {
      NewTokensExactly(c, c.limit, 0);
      ScaleUp(1, c.limit, c.window);
    }
  }

  lemma FirstRequest(c: Config, now: int)
    requires c.Valid() && 1 <= c.limit
    ensures c.Consumed(None, now) == (true, Some(Bucket(c.limit - 1, Some(now + c.Span()))))
  {
    NewTokensExactly(c, c.limit, 0);
    ScaleUp(1, c.limit, c.window);
  }

  // ----- how long a missing token takes

  lemma MinWaitIncreases(c: Config, j: int, k: int)
    requires c.Valid() && 1 <= c.limit && j <= k
    ensures c.MinWait(j) <= c.MinWait(k)
  {
    ScaleUp(j, k, c.window);
    CeilingAtMost(k * c.window, c.limit, Ceiling(k * c.window, c.limit));
    CeilingAtMost(j * c.window, c.limit, Ceiling(k * c.window, c.limit));
    ScaleUp(Ceiling(j * c.window, c.limit), Ceiling(k * c.window, c.limit), c.ticks);
  }

  /** The first missing token takes some time, the last one that can be earned the whole window less the rounding, and
      the one after it is out of reach. */
  lemma MinWaitLandmarks(c: Config)
    requires c.Valid() && 1 <= c.limit
    ensures 1 <= c.MinWait(1)
    ensures c.MinWait(c.limit) == c.Span() - c.Slack()
    ensures c.Span() < c.MinWait(c.limit + 1)
  {
    CeilingAtMost(c.window, c.limit, 0);
    ScaleUp(1, Ceiling(c.window, c.limit), c.ticks);
    CeilingAtMost(c.limit * c.window, c.limit, c.window);
    CeilingAtMost(c.limit * c.window, c.limit, c.window - 1);
    CeilingAtMost((c.limit + 1) * c.window, c.limit, c.window);
    assert (c.limit + 1) * c.window == c.window * c.limit + c.window;
    assert (c.window - 1) * c.limit == c.window * c.limit - c.limit;
    ScaleUp(c.window + 1, Ceiling((c.limit + 1) * c.window, c.limit), c.ticks);
    assert (c.window + 1) * c.ticks == c.Span() + c.ticks;
  }

  /** The same wait without the rounding to ticks and seconds: `k` tokens at `limit` per window. */
  lemma MinWaitInFractions(c: Config, k: int, age: int)
    requires c.Valid() && 1 <= c.limit && c.MinWait(k) <= age
    ensures c.Span() * k <= c.limit * (age + c.Slack())
  {
    var seconds := Ceiling(k * c.window, c.limit);
    CeilingAtMost(k * c.window, c.limit, seconds);
    ScaleUp(k * c.window, seconds * c.limit, c.ticks);
    ScaleUp(seconds * c.ticks, age + c.Slack(), c.limit);
    Reorder(c.window, c.ticks, k, seconds, c.limit);
  }

  lemma Reorder(window: int, ticks: int, k: int, seconds: int, limit: int)
    ensures k * window * ticks == window * ticks * k
    ensures seconds * limit * ticks == seconds * ticks * limit
  {
    assert k * window == window * k && window * k * ticks == window * (k * ticks);
    assert seconds * limit * ticks == seconds * (limit * ticks) == seconds * (ticks * limit);
  }

  // ----- every run

  /** How many requests the present key has allowed since it was created. */
  function InLife(c: Config, times: seq<int>): nat
    requires c.Valid()
  {
    if times == [] then 0
    else
      var front, now := times[..|times| - 1], times[|times| - 1];
      if !c.Consumed(After(c, None, front), now).0 then InLife(c, front)
      else if c.Visible(After(c, None, front), now).None? then 1
      else InLife(c, front) + 1
  }

  /** The key after a run: unused, or last used by the last allowed request. */
  ghost predicate Reached(c: Config, b: Option<Bucket>, times: seq<int>) {
    c.Valid() &&
    var allowed := Allowed(c, None, times);
    && (times == [] ==> b == None)
    && (times != [] ==>
          && allowed != [] && allowed[|allowed| - 1] <= times[|times| - 1]
          && Used(c, b, allowed[|allowed| - 1]))
    && (b.Some? ==> b.value.tokens == c.limit - InLife(c, times) && InRange(c, b.value.tokens))
  }

  ghost predicate InRange(c: Config, tokens: int)
    requires c.Valid()
  {
    -c.limit <= tokens < c.limit && (c.Slack() == 0 ==> 1 - c.limit <= tokens)
  }

  lemma {:induction false} RunReaches(c: Config, times: seq<int>)
    requires c.Valid() && 1 <= c.limit && Monotone(times)
    ensures Reached(c, After(c, None, times), times)
  {
    if times != [] {
      var front, now := times[..|times| - 1], times[|times| - 1];
      RunReaches(c, front);
      if front == [] {
        FirstRequest(c, now);
      } else {
        assert front[|front| - 1] <= now;
        assert times == front + [now];
        OneMoreReaches(c, front, now);
      }
    }
  }

  lemma {:induction false} OneMoreReaches(c: Config, front: seq<int>, now: int)
    requires c.Valid() && 1 <= c.limit && front != [] && front[|front| - 1] <= now
    requires Reached(c, After(c, None, front), front)
    ensures Reached(c, After(c, None, front + [now]), front + [now])
  {
    AppendRequest(c, None, front, now);
    assert (front + [now])[..|front|] == front;
    var b, allowed := After(c, None, front), Allowed(c, None, front);
    var last := allowed[|allowed| - 1];
    OneRequest(c, b, last, now);
    CountInRange(c, b, last, now);
  }

  /** A request leaves the stored count in its range. */
  lemma CountInRange(c: Config, b: Option<Bucket>, last: int, now: int)
    requires c.Valid() && 1 <= c.limit && Used(c, b, last) && last <= now && InRange(c, b.value.tokens)
    ensures c.Consumed(b, now).1.Some? && InRange(c, c.Consumed(b, now).1.value.tokens)
  {
    OneRequest(c, b, last, now);
    if c.Consumed(b, now).0 && now < last + c.Span() && b.value.tokens < 1 {
      MinWaitLandmarks(c);
      var k := 1 - b.value.tokens;
      if c.limit + 1 <= k {
        MinWaitIncreases(c, c.limit + 1, k);
      }
      if c.limit <= k {
        MinWaitIncreases(c, c.limit, k);
      }
    }
  }

  /** In every run the stored count stays within `limit` of zero, and strictly so when the rounding cannot make a key
      look older than it is; what is missing from the limit is the number of requests this key has allowed. */
  lemma {:induction false} TokensStayInRange(c: Config, times: seq<int>)
    requires c.Valid() && 1 <= c.limit && Monotone(times)
    ensures var b := After(c, None, times);
            b.Some? ==>
              && -c.limit <= b.value.tokens < c.limit
              && (c.Slack() == 0 ==> 1 - c.limit <= b.value.tokens)
              && InLife(c, times) == c.limit - b.value.tokens
  {
    RunReaches(c, times);
  }

  /** Every run of the limiter keeps the stored count at `1 - limit` or above. */
  ghost predicate KeepsLastToken(c: Config)
    requires c.Valid()
  {
    forall times :: Monotone(times) ==> AboveLowest(c, After(c, None, times))
  }

  ghost predicate AboveLowest(c: Config, b: Option<Bucket>) {
    b.Some? ==> 1 - c.limit <= b.value.tokens
  }

  /** That holds exactly when the rounding of TTL has no slack, which is with one or two ticks per second. */
  lemma {:induction false} LowestCountExactly(c: Config)
    requires c.Valid() && 1 <= c.limit
    ensures KeepsLastToken(c) <==> c.Slack() == 0
    ensures c.Slack() == 0 <==> c.ticks <= 2
  {
    if c.Slack() == 0 {
      forall times | Monotone(times) ensures AboveLowest(c, After(c, None, times)) {
        RunReaches(c, times);
      }
    } else {
      LateRun(c, 2 * c.limit);
      assert !AboveLowest(c, After(c, None, Late(c, 2 * c.limit)));
    }
  }

  /** `n` requests, each in the last tick of the life of its key. */
  function Late(c: Config, n: nat): (times: seq<int>)
    ensures |times| == n
  {
    if n == 0 then [] else Late(c, n - 1) + [LateTime(c, n)]
  }

  function LateTime(c: Config, n: nat): int {
    if n <= 1 then 0 else LateTime(c, n - 1) + c.Span() - 1
  }

  /** With any slack at all, each of them is allowed, down to the lowest count there is. */
  ghost predicate Exhausts(c: Config, times: seq<int>, n: nat) {
    && c.Valid()
    && After(c, None, times) == Some(Bucket(c.limit - n, Some(LateTime(c, n) + c.Span())))
    && Monotone(times) && times != [] && times[|times| - 1] == LateTime(c, n)
  }

  lemma {:induction false} LateRun(c: Config, n: nat)
    requires c.Valid() && 1 <= n <= 2 * c.limit && 1 <= c.Slack()
    ensures Exhausts(c, Late(c, n), n)
  {
    if n == 1 {
      FirstBurst(c);
      assert Late(c, 1) == [0];
    } else {
      LateRun(c, n - 1);
      LateStep(c, n, Late(c, n - 1));
    }
  }

  lemma {:induction false} LateStep(c: Config, n: nat, front: seq<int>)
    requires 2 <= n && Exhausts(c, front, n - 1) && n <= 2 * c.limit && 1 <= c.Slack()
    ensures Exhausts(c, front + [LateTime(c, n)], n)
  {
    ScaleUp(1, c.window, c.ticks);
    MinWaitLandmarks(c);
    MinWaitIncreases(c, n - c.limit, c.limit);
    NextPasses(c, c.limit - (n - 1), LateTime(c, n - 1), LateTime(c, n));
    AppendRequest(c, None, front, LateTime(c, n));
    AppendMonotone(front, LateTime(c, n));
  }

  lemma AppendMonotone(times: seq<int>, now: int)
    requires Monotone(times) && (times != [] ==> times[|times| - 1] <= now)
    ensures Monotone(times + [now])
  {
  }

  /** A small instance: one request per second and a clock of milliseconds. */
  lemma RoundingCostsOneToken(c: Config)
    requires c == Config(1, 1, 1000)
    ensures Allowed(c, None, [0, 600]) == [0, 600]
    ensures After(c, None, [0, 600]).value.tokens == -1
  {
    assert [0, 600][..1] == [0] && [0][..0] == [];
    FirstRequest(c, 0);
    assert After(c, None, [0]) == Some(Bucket(0, Some(1000)));
    NewTokensExactly(c, 0, 1);
  }

  /** The k-th request that a key allows, for k beyond the limit, comes no sooner after the one before it than the token
      it needs takes: (k - limit) * window / limit but for the rounding. And k never exceeds twice the limit. */
  lemma {:induction false} LateRequestsWait(c: Config, times: seq<int>)
    requires c.Valid() && 1 <= c.limit && |times| > 1 && Monotone(times)
    requires c.Consumed(After(c, None, times[..|times| - 1]), times[|times| - 1]).0
    ensures Allowed(c, None, times[..|times| - 1]) != []
    ensures var k, now, allowed := InLife(c, times), times[|times| - 1], Allowed(c, None, times[..|times| - 1]);
            var age := now - allowed[|allowed| - 1];
            && k <= 2 * c.limit
            && (k > c.limit ==>
                  c.MinWait(k - c.limit) <= age && c.Span() * (k - c.limit) <= c.limit * (age + c.Slack()))
  {
    var front, now := times[..|times| - 1], times[|times| - 1];
    RunReaches(c, front);
    RunReaches(c, times);
    var b, allowed := After(c, None, front), Allowed(c, None, front);
    assert front[|front| - 1] <= now;
    OneRequest(c, b, allowed[|allowed| - 1], now);
    var k := InLife(c, times);
    if k > c.limit {
      MinWaitInFractions(c, k - c.limit, now - allowed[|allowed| - 1]);
    }
  }

  // ----- any span shorter than the window

  /** What the first `m` missing tokens take together. */
  function TotalWait(c: Config, m: int): int
    requires c.Valid() && 1 <= c.limit
    decreases m
  {
    if m <= 0 then 0 else TotalWait(c, m - 1) + c.MinWait(m)
  }

  lemma {:induction false} TotalWaitIncreases(c: Config, m: int, n: int)
    requires c.Valid() && 1 <= c.limit && m <= n
    ensures 0 <= TotalWait(c, m) <= TotalWait(c, n)
    decreases n
  {
    if n > 0 {
      MinWaitLandmarks(c);
      MinWaitIncreases(c, 1, n);
      TotalWaitIncreases(c, if m < n then m else n - 1, n - 1);
    }
  }

  /** Without the rounding: one, two, three refills and so on. */
  lemma {:induction false} TotalWaitInFractions(c: Config, m: nat)
    requires c.Valid() && 1 <= c.limit
    ensures c.Span() * (m * (m + 1)) <= 2 * (c.limit * (TotalWait(c, m) + m * c.Slack()))
  {
    if m > 0 {
      TotalWaitInFractions(c, m - 1);
      MinWaitInFractions(c, m, c.MinWait(m));
      TriangleLeft(c.Span(), m - 1);
      TriangleRight(c.limit, TotalWait(c, m - 1), m - 1, c.Slack(), c.MinWait(m));
    }
  }

  lemma TriangleLeft(span: int, m: int)
    ensures span * ((m + 1) * (m + 2)) == span * (m * (m + 1)) + 2 * (span * (m + 1))
  {
    assert (m + 1) * (m + 2) == m * (m + 1) + 2 * (m + 1);
  }

  lemma TriangleRight(limit: int, waited: int, m: int, slack: int, e: int)
    ensures limit * (waited + e + (m + 1) * slack) == limit * (waited + m * slack) + limit * (e + slack)
  {
    assert waited + e + (m + 1) * slack == (waited + m * slack) + (e + slack);
  }

  /** The requests of a span beyond the limit have waited for their tokens. */
  ghost predicate Waited(c: Config, n: int, waited: int) {
    c.Valid() && 1 <= c.limit && TotalWait(c, n - c.limit) <= waited
  }

  lemma WaitedMore(c: Config, n: int, waited: int, e: int, tokens: int)
    requires Waited(c, n, waited) && 0 <= waited && 0 <= e && tokens <= c.limit - n
    requires 1 <= tokens || c.MinWait(1 - tokens) <= e
    ensures Waited(c, n + 1, waited + e)
  {
    if c.limit <= n {
      MinWaitIncreases(c, n + 1 - c.limit, 1 - tokens);
    }
  }

  /** The key and the allowed requests after a span from `start` to `end`. */
  ghost predicate SpanState(c: Config, b: Option<Bucket>, b': Option<Bucket>, allowed: seq<int>, start: int, end: int) {
    if allowed == [] then b' == b != None
    else
      var last := allowed[|allowed| - 1];
      && start <= last <= end && Used(c, b', last)
      && b'.value.tokens <= c.limit - |allowed|
      && Waited(c, |allowed|, last - start)
  }

  /** One more request in the span. */
  lemma SpanStep(c: Config, b: Option<Bucket>, last: int, b': Option<Bucket>, allowed: seq<int>,
                 start: int, end: int, now: int)
    requires c.Valid() && 1 <= c.limit && (b == None || (Used(c, b, last) && last <= start))
    requires SpanState(c, b, b', allowed, start, end) && start <= end <= now < start + c.Span()
    ensures var (passes, after) := c.Consumed(b', now);
            SpanState(c, b, after, if passes then allowed + [now] else allowed, start, now)
  {
    var last' := if allowed == [] then last else allowed[|allowed| - 1];
    OneRequest(c, b', last', now);
    if c.Consumed(b', now).0 && allowed != [] {
      WaitedMore(c, |allowed|, last' - start, now - last', b'.value.tokens);
    }
  }

  lemma SpanStart(c: Config, b: Option<Bucket>, last: int, now: int)
    requires c.Valid() && 1 <= c.limit && (b == None || (Used(c, b, last) && last <= now))
    ensures SpanState(c, b, c.Consumed(b, now).1, if c.Consumed(b, now).0 then [now] else [], now, now)
  {
    if b == None {
      FirstRequest(c, now);
    } else {
      OneRequest(c, b, last, now);
    }
  }

  lemma {:induction false} SpanWaits(c: Config, b: Option<Bucket>, last: int, times: seq<int>)
    requires c.Valid() && 1 <= c.limit && times != [] && Monotone(times)
    requires b == None || (Used(c, b, last) && last <= times[0])
    requires times[|times| - 1] < times[0] + c.Span()
    ensures SpanState(c, b, After(c, b, times), Allowed(c, b, times), times[0], times[|times| - 1])
  {
    var front, now := times[..|times| - 1], times[|times| - 1];
    if front == [] {
      SpanStart(c, b, last, now);
    } else {
      SpanWaits(c, b, last, front);
      SpanStep(c, b, last, After(c, b, front), Allowed(c, b, front), times[0], front[|front| - 1], now);
    }
    assert times == front + [now];
    AppendRequest(c, b, front, now);
  }

  lemma {:induction false} AllowedInParts(c: Config, before: seq<int>, times: seq<int>)
    requires c.Valid()
    ensures Allowed(c, None, before + times) == Allowed(c, None, before) + Allowed(c, After(c, None, before), times)
    ensures After(c, None, before + times) == After(c, After(c, None, before), times)
  {
    if times == [] {
      assert before + times == before;
    } else {
      assert (before + times)[..|before + times| - 1] == before + times[..|times| - 1];
      AllowedInParts(c, before, times[..|times| - 1]);
    }
  }

  /** Requests after some history, the last of them less than a window after the first. */
  ghost predicate InSpan(c: Config, before: seq<int>, times: seq<int>) {
    times != [] && Monotone(before + times) && times[|times| - 1] < times[0] + c.Span()
  }

  /** The tokens of `m` requests beyond the limit can be earned within less than a window. */
  ghost predicate RefillFits(c: Config, m: int) {
    c.Valid() && 1 <= c.limit && (m <= 0 || TotalWait(c, m) < c.Span())
  }

  /** Whatever came before, a span shorter than the window allows at most limit + m requests, where the tokens for the m
      that go beyond the limit take less than the window together. */
  lemma {:induction false} AtMostLimitPlusRefill(c: Config, before: seq<int>, times: seq<int>)
    requires c.Valid() && 1 <= c.limit && InSpan(c, before, times)
    ensures RefillFits(c, |Allowed(c, After(c, None, before), times)| - c.limit)
    ensures RefillBound(c, |Allowed(c, After(c, None, before), times)| - c.limit)
  {
    MonotoneParts(before, times);
    var b, last := LastUse(c, before);
    WithinTheSpan(c, b, last, times);
    RefillInFractions(c, |Allowed(c, b, times)| - c.limit);
  }

  lemma {:induction false} WithinTheSpan(c: Config, b: Option<Bucket>, last: int, times: seq<int>)
    requires c.Valid() && 1 <= c.limit && times != [] && Monotone(times)
    requires b == None || (Used(c, b, last) && last <= times[0])
    requires times[|times| - 1] < times[0] + c.Span()
    ensures RefillFits(c, |Allowed(c, b, times)| - c.limit)
  {
    SpanWaits(c, b, last, times);
  }

  lemma {:induction false} LastUse(c: Config, times: seq<int>) returns (b: Option<Bucket>, last: int)
    requires c.Valid() && 1 <= c.limit && Monotone(times)
    ensures b == After(c, None, times)
    ensures times == [] ==> b == None
    ensures times != [] ==> Used(c, b, last) && last <= times[|times| - 1]
  {
    RunReaches(c, times);
    b := After(c, None, times);
    var allowed := Allowed(c, None, times);
    last := if allowed == [] then 0 else allowed[|allowed| - 1];
  }

  lemma MonotoneParts(before: seq<int>, times: seq<int>)
    requires Monotone(before + times)
    ensures Monotone(before) && Monotone(times)
    ensures before != [] && times != [] ==> before[|before| - 1] <= times[0]
  {
    var all := before + times;
    forall i, j | 0 <= i <= j < |before| ensures before[i] <= before[j] {
      assert all[i] <= all[j];
    }
    forall i, j | 0 <= i <= j < |times| ensures times[i] <= times[j] {
      assert all[|before| + i] <= all[|before| + j];
    }
    if before != [] && times != [] {
      assert all[|before| - 1] <= all[|before|];
    }
  }

  /** In fractions of the window: m (m + 1) / 2 < limit when the rounding has no slack, and the same with the slack of m
      roundings added to the window otherwise. */
  ghost predicate RefillBound(c: Config, m: int) {
    c.Valid() && (m > 0 ==>
      && c.Span() * (m * (m + 1)) < 2 * (c.limit * (c.Span() + m * c.Slack()))
      && (c.Slack() == 0 ==> m * (m + 1) < 2 * c.limit))
  }

  lemma {:induction false} RefillInFractions(c: Config, m: int)
    requires RefillFits(c, m)
    ensures RefillBound(c, m)
  {
    if m > 0 {
      TotalWaitInFractions(c, m);
      StrictlyScaled(c.limit, TotalWait(c, m) + m * c.Slack(), c.Span() + m * c.Slack());
      if c.Slack() == 0 {
        SpanCancels(c.Span(), m * (m + 1), c.limit);
      }
    }
  }

  lemma StrictlyScaled(limit: int, x: int, y: int)
    requires 0 < limit && x < y
    ensures 2 * (limit * x) < 2 * (limit * y)
  {
    ScaleUp(x + 1, y, limit);
  }

  lemma SpanCancels(span: int, pairs: int, limit: int)
    requires 0 < span && span * pairs < 2 * (limit * span)
    ensures pairs < 2 * limit
  {
    if 2 * limit <= pairs {
      ScaleUp(2 * limit, pairs, span);
    }
  }

  /** Some history and some span allow at least `n` requests. */
  ghost predicate Attained(c: Config, n: nat)
    requires c.Valid()
  {
    exists before, times :: InSpan(c, before, times) && n <= |Allowed(c, After(c, None, before), times)|
  }

  /** The bound is exact: a span shorter than the window can allow `n` requests if and only if the tokens of those
      beyond the limit can be earned within less than a window. */
  lemma {:induction false} SpanAllowsExactly(c: Config, n: nat)
    requires c.Valid() && 1 <= c.limit
    ensures Attained(c, n) <==> RefillFits(c, n - c.limit)
  {
    if before, times :| InSpan(c, before, times) && n <= |Allowed(c, After(c, None, before), times)| {
      AtMostLimitPlusRefill(c, before, times);
      TotalWaitIncreases(c, n - c.limit, |Allowed(c, After(c, None, before), times)| - c.limit);
    }
    if RefillFits(c, n - c.limit) {
      BurstIsAttained(c, n);
    }
  }

  lemma {:induction false} BurstIsAttained(c: Config, n: nat)
    requires RefillFits(c, n - c.limit)
    ensures Attained(c, n)
  {
    var k := if n == 0 then 1 else n;
    BurstRun(c, k);
    ScaleUp(1, c.window, c.ticks);
    AttainedBy(c, Burst(c, k), n);
  }

  lemma {:induction false} AttainedBy(c: Config, times: seq<int>, n: nat)
    requires c.Valid() && times != [] && Monotone(times) && times[|times| - 1] < times[0] + c.Span()
    requires Allowed(c, None, times) == times && n <= |times|
    ensures Attained(c, n)
  {
    assert [] + times == times;
    assert InSpan(c, [], times);
    assert After(c, None, []) == None;
    assert n <= |Allowed(c, After(c, None, []), times)|;
  }

  /** As many requests as there are tokens at once, and each further one as soon as its token is there. */
  function Burst(c: Config, n: nat): (times: seq<int>)
    requires c.Valid() && 1 <= c.limit
    ensures |times| == n
  {
    if n == 0 then [] else Burst(c, n - 1) + [TotalWait(c, n - c.limit)]
  }

  /** What such a burst leads to. */
  ghost predicate Bursts(c: Config, times: seq<int>, n: int) {
    && c.Valid() && 1 <= c.limit
    && After(c, None, times) == Some(Bucket(c.limit - n, Some(TotalWait(c, n - c.limit) + c.Span())))
    && Allowed(c, None, times) == times && Monotone(times)
    && times != [] && times[0] == 0 && times[|times| - 1] == TotalWait(c, n - c.limit)
  }

  lemma {:induction false} BurstRun(c: Config, n: nat)
    requires c.Valid() && 1 <= c.limit && 1 <= n && RefillFits(c, n - c.limit)
    ensures Bursts(c, Burst(c, n), n)
  {
    if n == 1 {
      FirstBurst(c);
    } else {
      FitsEarlier(c, n - c.limit);
      BurstRun(c, n - 1);
      BurstStep(c, n, Burst(c, n - 1));
    }
  }

  lemma {:induction false} FitsEarlier(c: Config, m: int)
    requires RefillFits(c, m)
    ensures RefillFits(c, m - 1)
  {
    TotalWaitIncreases(c, m - 1, m);
  }

  lemma {:induction false} FirstBurst(c: Config)
    requires c.Valid() && 1 <= c.limit
    ensures After(c, None, [0]) == Some(Bucket(c.limit - 1, Some(c.Span()))) && Allowed(c, None, [0]) == [0]
    ensures Burst(c, 1) == [0]
  {
    FirstRequest(c, 0);
    assert [] + [0] == [0];
    AppendRequest(c, None, [], 0);
  }

  lemma {:induction false} BurstStep(c: Config, n: nat, front: seq<int>)
    requires Bursts(c, front, n - 1) && 2 <= n && RefillFits(c, n - c.limit)
    ensures Bursts(c, front + [TotalWait(c, n - c.limit)], n)
  {
    ScaleUp(1, c.window, c.ticks);
    TotalWaitIncreases(c, n - 1 - c.limit, n - c.limit);
    var now := TotalWait(c, n - c.limit);
    NextPasses(c, c.limit - (n - 1), TotalWait(c, n - 1 - c.limit), now);
    AppendRequest(c, None, front, now);
    AppendMonotone(front, now);
  }

  // ----- denials

  /** Denied requests leave no trace: without them the run allows the same requests and ends in the same key. */
  lemma {:induction false} DenialsLeaveNoTrace(c: Config, times: seq<int>, allowed: seq<int>)
    requires c.Valid() && 1 <= c.limit && Monotone(times)
    requires allowed == Allowed(c, None, times)
    ensures Allowed(c, None, allowed) == allowed
    ensures After(c, None, allowed) == After(c, None, times)
  {
    if times != [] {
      var front, now := times[..|times| - 1], times[|times| - 1];
      var allowed', b := Allowed(c, None, front), After(c, None, front);
      DenialsLeaveNoTrace(c, front, allowed');
      DenialChangesNothing(c, front, now);
      AppendRequest(c, None, allowed', now);
      assert c.Consumed(b, now).0 ==> allowed == allowed' + [now];
      assert !c.Consumed(b, now).0 ==> allowed == allowed';
    }
  }

  lemma DenialChangesNothing(c: Config, times: seq<int>, now: int)
    requires c.Valid() && 1 <= c.limit && Monotone(times) && (times != [] ==> times[|times| - 1] <= now)
    ensures var b := After(c, None, times); !c.Consumed(b, now).0 ==> c.Consumed(b, now).1 == b
  {
    RunReaches(c, times);
    if times == [] {
      FirstRequest(c, now);
    } else {
      var allowed := Allowed(c, None, times);
      OneRequest(c, After(c, None, times), allowed[|allowed| - 1], now);
    }
  }

  /** Without a positive limit nothing is ever allowed. */
  lemma {:induction false} NothingWithoutLimit(c: Config, times: seq<int>)
    requires c.Valid() && c.limit < 1
    ensures Allowed(c, None, times) == []
  {
    if times != [] {
      var front, now := times[..|times| - 1], times[|times| - 1];
      NothingWithoutLimit(c, front);
      var bucket := match c.Visible(After(c, None, front), now) case None => Bucket(c.limit, None) case Some(x) => x;
      NewTokensExactly(c, bucket.tokens, 0);
      NewTokensExactly(c, bucket.tokens, c.window - c.Ttl(bucket, now));
    }
  }
}

/** The token-bucket limiter with its clean-up loop (internal/handler/rate_limiter.go). Times are seconds. */
module RateLimiter {

  /** Tokens per second are requestsPerMinute / 60. */
  datatype Config = Config(requestsPerMinute: nat, burst: int, interval: real)

  function Rate(cfg: Config): (r: real)
    ensures r >= 0.0
  {
    cfg.requestsPerMinute as real / 60.0
  }

  datatype Bucket = Bucket(tokens: real, max: real, rate: real, last: real)

  function NewBucket(cfg: Config, now: real): Bucket {
    Bucket(cfg.burst as real, cfg.burst as real, Rate(cfg), now)
  }

  /** The tokens that come back in that time. */
  function Gain(elapsed: real, rate: real): real {
    elapsed * rate
  }

  /** The tokens a request at `now` finds. */
  function Refilled(b: Bucket, now: real): real {
    var t := b.tokens + Gain(now - b.last, b.rate);
    if t > b.max then b.max else t
  }

  function Served(b: Bucket, now: real): (Bucket, bool) {
    var t := Refilled(b, now);
    if t >= 1.0 then (b.(tokens := t - 1.0, last := now), true) else (b.(tokens := t, last := now), false)
  }

  type Buckets = map<string, Bucket>

  /** One request of `key`; a bucket it has to create reads the clock at `seen`, the bucket itself at `at`. */
  function AllowKey(cfg: Config, m: Buckets, key: string, seen: real, at: real): (Buckets, bool) {
    var b := if key in m then m[key] else NewBucket(cfg, seen);
    var (b', ok) := Served(b, at);
    (m[key := b'], ok)
  }

  function Swept(cfg: Config, m: Buckets, now: real): Buckets {
    map k | k in m && !(m[k].last < now - cfg.interval) :: m[k]
  }

  // ---------------------------------------------------------------- the objects

  class TokenBucket {
    var tokens: real
    var maxTokens: real
    var refillRate: real
    var lastRefill: real

    constructor (cfg: Config, now: real)
      ensures View() == NewBucket(cfg, now)
    {
      tokens := cfg.burst as real;
      maxTokens := cfg.burst as real;
      refillRate := cfg.requestsPerMinute as real / 60.0;
      lastRefill := now;
    }

    function View(): Bucket
      reads this
    {
      Bucket(tokens, maxTokens, refillRate, lastRefill)
    }

    method Allow(now: real) returns (ok: bool)
      modifies this
      ensures (View(), ok) == Served(old(View()), now)
    {
      var elapsed := now - lastRefill;
      tokens := tokens + elapsed * refillRate;
      if tokens > maxTokens {
        tokens := maxTokens;
      }
      lastRefill := now;
      if tokens >= 1.0 {
        tokens := tokens - 1.0;
        return true;
      }
      return false;
    }
  }

  class Limiter {
    const config: Config
    var buckets: map<string, TokenBucket>

    constructor (cfg: Config)
      ensures config == cfg && buckets == map[] && Valid()
    {
      config := cfg;
      buckets := map[];
    }

    /** No two keys share a bucket. */
    ghost predicate Valid()
      reads this
    {
      forall j, k :: j in buckets && k in buckets && j != k ==> buckets[j] != buckets[k]
    }

    ghost function View(): Buckets
      reads this, buckets.Values
    {
      map k | k in buckets :: buckets[k].View()
    }

    method Allow(key: string, seen: real, at: real) returns (ok: bool)
      requires Valid()
      modifies this`buckets, buckets.Values
      ensures Valid() && fresh(buckets.Values - old(buckets.Values))
      ensures (View(), ok) == AllowKey(config, old(View()), key, seen, at)
    {
      var bucket;
      if key !in buckets {
        bucket := new TokenBucket(config, seen);
        buckets := buckets[key := bucket];
      } else {
        bucket := buckets[key];
      }
      ok := bucket.Allow(at);
      assert View() == old(View())[key := bucket.View()];
    }

    /** One tick of the clean-up loop; map iteration order is arbitrary. */
    method Cleanup(now: real)
      requires Valid()
      modifies this`buckets
      ensures Valid() && buckets.Values <= old(buckets.Values)
      ensures forall k :: k in buckets <==> k in old(buckets) && old(buckets[k].lastRefill) >= now - config.interval
      ensures forall k :: k in buckets ==> buckets[k] == old(buckets)[k]
      ensures View() == Swept(config, old(View()), now)
    {
      var threshold := now - config.interval;
      var todo := buckets.Keys;
      while todo != {}
        invariant todo <= old(buckets).Keys
        invariant buckets.Keys <= old(buckets).Keys && todo <= buckets.Keys
        invariant forall k :: k in buckets ==> buckets[k] == old(buckets)[k]
        invariant forall k :: k in old(buckets) && k !in todo ==>
                    (k in buckets <==> !(old(buckets)[k].lastRefill < threshold))
        decreases |todo|
      {
        var key :| key in todo;
        if buckets[key].lastRefill < threshold {
          buckets := buckets - {key};
        }
        todo := todo - {key};
      }
    }
  }

  // ---------------------------------------------------------------- traces

  datatype Event = Request(key: string, seen: real, at: real) | Sweep(at: real)

  /** The clock never goes back: not from event to event, nor within one request. */
  predicate Ordered(trace: seq<Event>, from: real) {
    trace == [] || (from <= trace[0].at && (trace[0].Request? ==> trace[0].seen <= trace[0].at)
                    && Ordered(trace[1..], trace[0].at))
  }

  /** One event; `sweeping` off is a limiter that never cleans up. The answer is None for a sweep. */
  function After(cfg: Config, m: Buckets, e: Event, sweeping: bool): (Buckets, seq<bool>) {
    match e
    case Request(key, seen, at) => var (m', ok) := AllowKey(cfg, m, key, seen, at); (m', [ok])
    case Sweep(at) => (if sweeping then Swept(cfg, m, at) else m, [])
  }

  /** The answers, in order, to all requests of a trace. */
  function Answers(cfg: Config, m: Buckets, trace: seq<Event>, sweeping: bool): seq<bool>
    decreases |trace|
  {
    if trace == [] then [] else
    var (m', out) := After(cfg, m, trace[0], sweeping);
    out + Answers(cfg, m', trace[1..], sweeping)
  }

  function StateAfter(cfg: Config, m: Buckets, trace: seq<Event>, sweeping: bool): Buckets
    decreases |trace|
  {
    if trace == [] then m else StateAfter(cfg, After(cfg, m, trace[0], sweeping).0, trace[1..], sweeping)
  }

  /** No bucket is swept before the time in which it would have refilled by itself. */
  predicate RefillsBeforeSweep(cfg: Config) {
    cfg.requestsPerMinute as real * cfg.interval >= 60.0 * cfg.burst as real
  }

  /** Sixty seconds bring a minute's requests. */
  lemma PerMinute(cfg: Config, x: real)
    ensures 60.0 * Gain(x, Rate(cfg)) == cfg.requestsPerMinute as real * x
  {
    assert 60.0 * (x * (cfg.requestsPerMinute as real / 60.0)) == x * (60.0 * (cfg.requestsPerMinute as real / 60.0));
  }

  function Floor(cfg: Config): real {
    if cfg.burst < 0 then cfg.burst as real else 0.0
  }

  /** A bucket of this limiter at time `now`: its tokens lie between 0 and the burst size. */
  predicate BucketOk(cfg: Config, b: Bucket, now: real) {
    && b.max == cfg.burst as real && b.rate == Rate(cfg) && b.last <= now
    && Floor(cfg) <= b.tokens <= cfg.burst as real
  }

  predicate AllOk(cfg: Config, m: Buckets, now: real) {
    forall k :: k in m ==> BucketOk(cfg, m[k], now)
  }

  lemma Scale(a: real, b: real, r: real)
    requires a <= b && r >= 0.0
    ensures Gain(a, r) <= Gain(b, r)
  {
    assert (b - a) * r >= 0.0;
  }

  lemma Nonnegative(a: real, r: real)
    requires a >= 0.0 && r >= 0.0
    ensures Gain(a, r) >= 0.0
  {
  }

  lemma ServedOk(cfg: Config, b: Bucket, at: real)
    requires BucketOk(cfg, b, at)
    ensures BucketOk(cfg, Served(b, at).0, at)
    ensures Floor(cfg) <= Refilled(b, at) <= cfg.burst as real
  {
    hide Gain;
    Nonnegative(at - b.last, b.rate);
  }

  lemma AfterOk(cfg: Config, m: Buckets, e: Event, sweeping: bool, from: real)
    requires AllOk(cfg, m, from) && Ordered([e], from)
    ensures AllOk(cfg, After(cfg, m, e, sweeping).0, e.at)
  {
    hide Served;
    if e.Request? {
      var b := if e.key in m then m[e.key] else NewBucket(cfg, e.seen);
      assert BucketOk(cfg, b, e.at);
      ServedOk(cfg, b, e.at);
    }
  }

  /** Tokens always lie between 0 and the burst size, sweeps or not. */
  lemma {:induction false} TokensInRange(cfg: Config, m: Buckets, trace: seq<Event>, sweeping: bool, from: real,
                                         key: string)
    requires AllOk(cfg, m, from) && Ordered(trace, from) && cfg.burst >= 0
    requires key in StateAfter(cfg, m, trace, sweeping)
    ensures 0.0 <= StateAfter(cfg, m, trace, sweeping)[key].tokens <= cfg.burst as real
    decreases |trace|
  {
    hide After;
    if trace == [] {
      assert BucketOk(cfg, m[key], from);
    } else {
      assert Ordered([trace[0]], from);
      AfterOk(cfg, m, trace[0], sweeping, from);
      TokensInRange(cfg, After(cfg, m, trace[0], sweeping).0, trace[1..], sweeping, trace[0].at, key);
    }
  }

  // ---------------------------------------------------------------- sweeping is invisible

  /** A bucket that any request from `now` on finds full. */
  predicate FullFrom(cfg: Config, b: Bucket, now: real) {
    b.tokens + Gain(now - b.last, b.rate) >= cfg.burst as real
  }

  /** The sweeping limiter `m` and the one `r` that never sweeps hold the same buckets, but for full ones. */
  ghost predicate Matches(cfg: Config, m: Buckets, r: Buckets, now: real) {
    && AllOk(cfg, r, now)
    && (forall k :: k in m ==> k in r && m[k] == r[k])
    && (forall k :: k in r && k !in m ==> FullFrom(cfg, r[k], now))
  }

  lemma FullLater(cfg: Config, b: Bucket, now: real, later: real)
    requires BucketOk(cfg, b, now) && FullFrom(cfg, b, now) && now <= later
    ensures FullFrom(cfg, b, later)
    ensures Refilled(b, later) == cfg.burst as real
  {
    hide Gain;
    Scale(now - b.last, later - b.last, b.rate);
  }

  /** Sweepable buckets are full. */
  lemma StaleIsFull(cfg: Config, b: Bucket, now: real)
    requires RefillsBeforeSweep(cfg) && BucketOk(cfg, b, now) && b.last < now - cfg.interval
    ensures FullFrom(cfg, b, now)
  {
    hide Gain, Rate;
    PerMinute(cfg, cfg.interval);
    Scale(cfg.interval, now - b.last, b.rate);
    Nonnegative(now - b.last, b.rate);
  }

  lemma NewIsFull(cfg: Config, seen: real, at: real)
    requires seen <= at
    ensures Refilled(NewBucket(cfg, seen), at) == cfg.burst as real
  {
    hide Gain, Rate;
    Nonnegative(at - seen, Rate(cfg));
  }

  /** What a request finds decides everything it does. */
  lemma SameRefillSameService(b: Bucket, c: Bucket, at: real)
    requires Refilled(b, at) == Refilled(c, at) && b.max == c.max && b.rate == c.rate
    ensures Served(b, at) == Served(c, at)
  {
    hide Gain, Refilled;
  }

  lemma MatchStep(cfg: Config, m: Buckets, r: Buckets, e: Event, from: real)
    requires RefillsBeforeSweep(cfg) && Matches(cfg, m, r, from) && Ordered([e], from)
    ensures Matches(cfg, After(cfg, m, e, true).0, After(cfg, r, e, false).0, e.at)
    ensures After(cfg, m, e, true).1 == After(cfg, r, e, false).1
  {
    hide Served, Refilled, RefillsBeforeSweep, FullFrom;
    AfterOk(cfg, r, e, false, from);
    forall k | k in r && k !in m ensures FullFrom(cfg, r[k], e.at) {
      FullLater(cfg, r[k], from, e.at);
    }
    match e
    case Request(key, seen, at) =>
      if key !in m && key in r {
        NewIsFull(cfg, seen, at);
        FullLater(cfg, r[key], from, at);
        SameRefillSameService(NewBucket(cfg, seen), r[key], at);
      }
    case Sweep(at) =>
      forall k | k in m && m[k].last < at - cfg.interval ensures FullFrom(cfg, r[k], at) {
        StaleIsFull(cfg, r[k], at);
      }
  }

  lemma {:induction false} MatchTrace(cfg: Config, m: Buckets, r: Buckets, trace: seq<Event>, from: real)
    requires RefillsBeforeSweep(cfg) && Matches(cfg, m, r, from) && Ordered(trace, from)
    ensures Answers(cfg, m, trace, true) == Answers(cfg, r, trace, false)
    decreases |trace|
  {
    hide After, Matches, RefillsBeforeSweep;
    if trace != [] {
      assert Ordered([trace[0]], from);
      MatchStep(cfg, m, r, trace[0], from);
      MatchTrace(cfg, After(cfg, m, trace[0], true).0, After(cfg, r, trace[0], false).0, trace[1..], trace[0].at);
    }
  }

  /** Cleaning up cannot be seen by any client, on any trace, with sweeps anywhere in it. */
  ghost predicate SweepsInvisible(cfg: Config) {
    forall trace: seq<Event>, from: real :: Ordered(trace, from) ==>
      Answers(cfg, map[], trace, true) == Answers(cfg, map[], trace, false)
  }

  // ---------------------------------------------------------------- and only then

  function Repeat(n: nat, at: real): seq<Event> {
    if n == 0 then [] else [Request("k", at, at)] + Repeat(n - 1, at)
  }

  lemma {:induction false} RepeatOrdered(n: nat, at: real, rest: seq<Event>)
    requires Ordered(rest, at)
    ensures Ordered(Repeat(n, at) + rest, at)
  {
    if n == 0 {
      assert Repeat(0, at) + rest == rest;
    } else {
      RepeatOrdered(n - 1, at, rest);
      assert (Repeat(n, at) + rest)[1..] == Repeat(n - 1, at) + rest;
    }
  }

  lemma {:induction false} RunAppend(cfg: Config, m: Buckets, a: seq<Event>, b: seq<Event>, sweeping: bool)
    ensures StateAfter(cfg, m, a + b, sweeping) == StateAfter(cfg, StateAfter(cfg, m, a, sweeping), b, sweeping)
    ensures Answers(cfg, m, a + b, sweeping) == Answers(cfg, m, a, sweeping)
              + Answers(cfg, StateAfter(cfg, m, a, sweeping), b, sweeping)
    decreases |a|
  {
    hide After;
    if a == [] {
      assert a + b == b;
    } else {
      assert (a + b)[1..] == a[1..] + b;
      RunAppend(cfg, After(cfg, m, a[0], sweeping).0, a[1..], b, sweeping);
    }
  }

  predicate AllTrue(s: seq<bool>) {
    forall i :: 0 <= i < |s| ==> s[i]
  }

  /** `m` finds `y` tokens for the key of Repeat at time `at`. */
  predicate Finds(cfg: Config, m: Buckets, y: real, at: real) {
    && ("k" in m ==> m["k"].max == cfg.burst as real && m["k"].rate == Rate(cfg) && Refilled(m["k"], at) == y)
    && ("k" !in m ==> cfg.burst as real == y)
  }

  lemma OneRequest(cfg: Config, m: Buckets, y: real, at: real, sweeping: bool)
    requires Finds(cfg, m, y, at) && y <= cfg.burst as real
    ensures var (m', out) := After(cfg, m, Request("k", at, at), sweeping);
            && out == [y >= 1.0]
            && Finds(cfg, m', if y >= 1.0 then y - 1.0 else y, at)
            && "k" in m' && m'["k"].last == at && m'["k"].tokens == (if y >= 1.0 then y - 1.0 else y)
  {
    NewIsFull(cfg, at, at);
  }

  /** n requests at one moment are all served exactly when n tokens are there. */
  lemma {:induction false} Burst(cfg: Config, m: Buckets, n: nat, y: real, at: real, sweeping: bool)
    requires Finds(cfg, m, y, at) && 0.0 <= y <= cfg.burst as real
    ensures AllTrue(Answers(cfg, m, Repeat(n, at), sweeping)) <==> y >= n as real
    ensures |Answers(cfg, m, Repeat(n, at), sweeping)| == n
    ensures n > 0 && y == n as real ==>
              var t := StateAfter(cfg, m, Repeat(n, at), sweeping);
              "k" in t && t["k"] == Bucket(0.0, cfg.burst as real, Rate(cfg), at)
    decreases n
  {
    hide After, Finds;
    if n > 0 {
      var e := Request("k", at, at);
      OneRequest(cfg, m, y, at, sweeping);
      var m' := After(cfg, m, e, sweeping).0;
      assert Repeat(n, at)[1..] == Repeat(n - 1, at);
      var rest := Answers(cfg, m', Repeat(n - 1, at), sweeping);
      var all := Answers(cfg, m, Repeat(n, at), sweeping);
      assert all == [y >= 1.0] + rest;
      if y >= 1.0 {
        Burst(cfg, m', n - 1, y - 1.0, at, sweeping);
        assert AllTrue(all) <==> AllTrue(rest) by {
          assert forall i :: 0 <= i < |rest| ==> all[i + 1] == rest[i];
        }
        if y == n as real && n == 1 {
          DrainedBucket(cfg, m', at);
        }
      } else {
        Burst(cfg, m', n - 1, y, at, sweeping);
        assert !all[0];
      }
    }
  }

  lemma DrainedBucket(cfg: Config, m: Buckets, at: real)
    requires Finds(cfg, m, 0.0, at) && "k" in m && m["k"].last == at && m["k"].tokens == 0.0
    ensures m["k"] == Bucket(0.0, cfg.burst as real, Rate(cfg), at)
  {
  }

  /** A moment at which a drained bucket may be swept but is not full yet. */
  lemma BadMoment(cfg: Config) returns (x: real)
    requires cfg.interval > 0.0 && !RefillsBeforeSweep(cfg)
    ensures x > cfg.interval && 0.0 <= Gain(x, Rate(cfg)) < cfg.burst as real
  {
    PerMinute(cfg, cfg.interval);
    var r, gap := Rate(cfg), cfg.burst as real - Gain(cfg.interval, Rate(cfg));
    var eps := gap / (2.0 * (r + 1.0));
    x := cfg.interval + eps;
    assert eps * (2.0 * (r + 1.0)) == gap;
    assert eps > 0.0;
    assert eps * (2.0 * (r + 1.0)) == 2.0 * (eps * r) + 2.0 * eps;
    assert x * r == cfg.interval * r + eps * r;
    Nonnegative(x, r);
  }

  /** n requests, a sweep at x, n requests. */
  function BadTrace(n: nat, x: real): seq<Event> {
    Repeat(n, 0.0) + ([Sweep(x)] + Repeat(n, x))
  }

  lemma BadTraceOrdered(n: nat, x: real)
    requires x >= 0.0
    ensures Ordered(BadTrace(n, x), 0.0)
  {
    RepeatOrdered(n, x, []);
    assert Repeat(n, x) + [] == Repeat(n, x);
    assert ([Sweep(x)] + Repeat(n, x))[1..] == Repeat(n, x);
    RepeatOrdered(n, 0.0, [Sweep(x)] + Repeat(n, x));
  }

  /** Whether the second burst of the bad trace is served in full. */
  lemma SecondBurst(cfg: Config, x: real, sweeping: bool)
    requires cfg.burst > 0 && cfg.interval > 0.0 && x > cfg.interval && 0.0 <= Gain(x, Rate(cfg)) < cfg.burst as real
    ensures AllTrue(Answers(cfg, map[], BadTrace(cfg.burst, x), sweeping)) <==> sweeping
  {
    hide After;
    var n, y := cfg.burst, Gain(x, Rate(cfg));
    var first, tail := Repeat(n, 0.0), [Sweep(x)] + Repeat(n, x);
    Burst(cfg, map[], n, n as real, 0.0, sweeping);
    RunAppend(cfg, map[], first, tail, sweeping);
    var m := StateAfter(cfg, map[], first, sweeping);
    SweepDrained(cfg, m, x, sweeping);
    var m' := After(cfg, m, Sweep(x), sweeping).0;
    assert tail[1..] == Repeat(n, x);
    var late := Answers(cfg, m', Repeat(n, x), sweeping);
    assert Answers(cfg, m, tail, sweeping) == late;
    Burst(cfg, m', n, if sweeping then n as real else y, x, sweeping);
    var early := Answers(cfg, map[], first, sweeping);
    assert forall i :: 0 <= i < |late| ==> (early + late)[n + i] == late[i];
  }

  lemma SweepDrained(cfg: Config, m: Buckets, x: real, sweeping: bool)
    requires "k" in m && m["k"] == Bucket(0.0, cfg.burst as real, Rate(cfg), 0.0)
    requires x > cfg.interval && 0.0 <= Gain(x, Rate(cfg)) < cfg.burst as real
    ensures var (m', out) := After(cfg, m, Sweep(x), sweeping);
            out == [] && Finds(cfg, m', if sweeping then cfg.burst as real else Gain(x, Rate(cfg)), x)
  {
    hide Gain, Rate;
  }

  /** The clean-up loop is invisible exactly when the rate refills a whole burst within one clean-up
      interval (which a ticker requires to be positive). */
  lemma SweepsInvisibleIff(cfg: Config)
    requires cfg.interval > 0.0
    ensures SweepsInvisible(cfg) <==> cfg.requestsPerMinute as real * cfg.interval >= 60.0 * cfg.burst as real
  {
    hide Answers, Ordered;
    if RefillsBeforeSweep(cfg) {
      forall trace: seq<Event>, from: real | Ordered(trace, from)
        ensures Answers(cfg, map[], trace, true) == Answers(cfg, map[], trace, false)
      {
        MatchTrace(cfg, map[], map[], trace, from);
      }
    } else {
      var x := BadMoment(cfg);
      assert cfg.burst > 0;
      SecondBurst(cfg, x, true);
      SecondBurst(cfg, x, false);
      BadTraceOrdered(cfg.burst, x);
    }
  }

  const DEFAULT: Config := Config(60, 10, 300.0)
  const AUTH: Config := Config(10, 3, 300.0)

  /** Both configurations in use. */
  lemma ConfigurationsAreInvisible()
    ensures SweepsInvisible(DEFAULT) && SweepsInvisible(AUTH)
  {
    SweepsInvisibleIff(DEFAULT);
    SweepsInvisibleIff(AUTH);
  }

  // ---------------------------------------------------------------- when a request is let through

  /** After any trace, a request passes exactly when its key has no bucket, or what the bucket had left and what has
      come back since, RequestsPerMinute every sixty seconds, make up one token. */
  lemma PassesIff(cfg: Config, before: seq<Event>, from: real, key: string, seen: real, at: real)
    requires cfg.burst >= 1 && Ordered(before + [Request(key, seen, at)], from)
    ensures var m := StateAfter(cfg, map[], before, true);
            After(cfg, m, Request(key, seen, at), true).1 ==
            [key !in m || 60.0 * m[key].tokens + cfg.requestsPerMinute as real * (at - m[key].last) >= 60.0]
  {
    hide StateAfter, Gain, Rate;
    OrderedSplit(before, [Request(key, seen, at)], from);
    RunOk(cfg, map[], before, from);
    var m := StateAfter(cfg, map[], before, true);
    if key in m {
      PerMinute(cfg, at - m[key].last);
    } else {
      NewIsFull(cfg, seen, at);
    }
  }

  /** A burst passes in full, and the next request exactly when a token has come back. */
  lemma AfterBurst(cfg: Config, s: real, t: real, sweeping: bool)
    requires cfg.burst >= 1 && s <= t
    ensures var all := Answers(cfg, map[], Repeat(cfg.burst, s) + [Request("k", t, t)], sweeping);
            && |all| == cfg.burst + 1 && AllTrue(all[..cfg.burst])
            && (all[cfg.burst] <==> cfg.requestsPerMinute as real * (t - s) >= 60.0)
  {
    hide After, Gain, Rate;
    var n, e := cfg.burst, Request("k", t, t);
    Burst(cfg, map[], n, n as real, s, sweeping);
    RunAppend(cfg, map[], Repeat(n, s), [e], sweeping);
    var m := StateAfter(cfg, map[], Repeat(n, s), sweeping);
    Nonnegative(t - s, Rate(cfg));
    PerMinute(cfg, t - s);
    FirstAfterBurst(cfg, m, s, t, sweeping);
    assert Answers(cfg, After(cfg, m, e, sweeping).0, [], sweeping) == [];
    assert [e][1..] == [];
  }

  lemma FirstAfterBurst(cfg: Config, m: Buckets, s: real, t: real, sweeping: bool)
    requires cfg.burst >= 1 && "k" in m && m["k"] == Bucket(0.0, cfg.burst as real, Rate(cfg), s)
    ensures After(cfg, m, Request("k", t, t), sweeping).1 == [Gain(t - s, Rate(cfg)) >= 1.0]
  {
    hide Gain, Rate;
  }

  // ---------------------------------------------------------------- the rate bound

  /** The tokens a request of `key` would find at `now`. */
  function Available(cfg: Config, m: Buckets, key: string, now: real): real {
    if key in m then Refilled(m[key], now) else cfg.burst as real
  }

  /** Requests of `key` that were allowed. */
  function Allowed(cfg: Config, m: Buckets, trace: seq<Event>, key: string): nat
    decreases |trace|
  {
    if trace == [] then 0 else
    var (m', out) := After(cfg, m, trace[0], true);
    (if trace[0].Request? && trace[0].key == key && out == [true] then 1 else 0) + Allowed(cfg, m', trace[1..], key)
  }

  lemma RefillRate(cfg: Config, b: Bucket, now: real, later: real)
    requires BucketOk(cfg, b, now) && now <= later
    ensures Refilled(b, later) <= Refilled(b, now) + Gain(later - now, Rate(cfg))
  {
    hide Rate, Gain;
    Split(b.rate, b.last, now, later);
    Nonnegative(later - now, b.rate);
  }

  lemma AvailableGrows(cfg: Config, m: Buckets, key: string, now: real, later: real)
    requires AllOk(cfg, m, now) && now <= later
    ensures Available(cfg, m, key, later) <= Available(cfg, m, key, now) + Gain(later - now, Rate(cfg))
    ensures Floor(cfg) <= Available(cfg, m, key, now) <= cfg.burst as real
  {
    hide Rate, Refilled, Gain;
    if key !in m {
      Nonnegative(later - now, Rate(cfg));
    } else {
      RefillRate(cfg, m[key], now, later);
      ServedOk(cfg, m[key], now);
    }
  }

  /** An allowed request pays one token; a sweep neither gives nor takes. */
  lemma StepPays(cfg: Config, m: Buckets, e: Event, key: string, from: real)
    requires RefillsBeforeSweep(cfg) && AllOk(cfg, m, from) && Ordered([e], from)
    ensures Available(cfg, After(cfg, m, e, true).0, key, e.at) + Allowed(cfg, m, [e], key) as real
            <= Available(cfg, m, key, e.at)
  {
    hide RefillsBeforeSweep, FullFrom, Gain, Rate;
    assert Allowed(cfg, After(cfg, m, e, true).0, [], key) == 0;
    match e
    case Request(k, seen, at) =>
      var b := if k in m then m[k] else NewBucket(cfg, seen);
      if k == key {
        NewIsFull(cfg, seen, at);
        ServedNow(b, at);
      }
    case Sweep(at) =>
      if key in m && m[key].last < at - cfg.interval {
        StaleIsFull(cfg, m[key], at);
        FullLater(cfg, m[key], at, at);
      }
  }

  lemma ServedNow(b: Bucket, at: real)
    ensures Refilled(Served(b, at).0, at) + (if Served(b, at).1 then 1.0 else 0.0) <= Refilled(b, at)
  {
    hide Gain;
    NoTime(b.rate);
    assert at - at == 0.0;
  }

  lemma Split(r: real, a: real, b: real, c: real)
    ensures Gain(c - a, r) == Gain(b - a, r) + Gain(c - b, r)
  {
    hide Gain;
    GainAdds(b - a, c - b, c - a, r);
  }

  lemma GainAdds(x: real, y: real, z: real, r: real)
    requires z == x + y
    ensures Gain(z, r) == Gain(x, r) + Gain(y, r)
  {
    assert z * r == (x + y) * r;
  }

  lemma {:induction false} AllowedAtMost(cfg: Config, m: Buckets, trace: seq<Event>, key: string, from: real, to: real)
    requires RefillsBeforeSweep(cfg) && AllOk(cfg, m, from) && Ordered(trace, from)
    requires from <= to && forall i :: 0 <= i < |trace| ==> trace[i].at <= to
    ensures Allowed(cfg, m, trace, key) as real <= Available(cfg, m, key, from) - Floor(cfg)
              + Gain(to - from, Rate(cfg))
    decreases |trace|
  {
    hide After, RefillsBeforeSweep, Rate, Available, AllOk, Floor, Gain;
    AvailableGrows(cfg, m, key, from, to);
    if trace == [] {
      Nonnegative(to - from, Rate(cfg));
    } else {
      var e := trace[0];
      var m' := After(cfg, m, e, true).0;
      assert Ordered([e], from);
      StepPays(cfg, m, e, key, from);
      AfterOk(cfg, m, e, true, from);
      AvailableGrows(cfg, m, key, from, e.at);
      AllowedAtMost(cfg, m', trace[1..], key, e.at, to);
      assert Allowed(cfg, m', [], key) == 0;
      assert Allowed(cfg, m, trace, key) == Allowed(cfg, m, [e], key) + Allowed(cfg, m', trace[1..], key);
      Split(Rate(cfg), from, e.at, to);
    }
  }

  lemma {:induction false} OrderedSplit(a: seq<Event>, b: seq<Event>, from: real)
    requires Ordered(a + b, from)
    ensures Ordered(a, from)
    ensures Ordered(b, if a == [] then from else a[|a| - 1].at)
    ensures from <= if a == [] then from else a[|a| - 1].at
  {
    if a == [] {
      assert a + b == b;
    } else {
      assert (a + b)[1..] == a[1..] + b;
      OrderedSplit(a[1..], b, a[0].at);
    }
  }

  lemma {:induction false} RunOk(cfg: Config, m: Buckets, trace: seq<Event>, from: real)
    requires AllOk(cfg, m, from) && Ordered(trace, from)
    ensures AllOk(cfg, StateAfter(cfg, m, trace, true), if trace == [] then from else trace[|trace| - 1].at)
    decreases |trace|
  {
    hide After, AllOk;
    if trace != [] {
      assert Ordered([trace[0]], from);
      AfterOk(cfg, m, trace[0], true, from);
      RunOk(cfg, After(cfg, m, trace[0], true).0, trace[1..], trace[0].at);
    }
  }

  /** Whatever came before, a key gets at most BurstSize requests through between times s and t, and
      RequestsPerMinute more for every sixty seconds, sweeps included. */
  lemma RateBound(cfg: Config, before: seq<Event>, window: seq<Event>, key: string, from: real, s: real, t: real)
    requires RefillsBeforeSweep(cfg) && cfg.burst >= 0
    requires Ordered(before + window, from)
    requires s <= t && forall i :: 0 <= i < |window| ==> s <= window[i].at <= t
    ensures 60.0 * Allowed(cfg, StateAfter(cfg, map[], before, true), window, key) as real
            <= 60.0 * cfg.burst as real + cfg.requestsPerMinute as real * (t - s)
  {
    hide Allowed, StateAfter, RefillsBeforeSweep, Rate, Gain, Ordered;
    PerMinute(cfg, t - s);
    TokenBound(cfg, before, window, key, from, s, t);
  }

  lemma TokenBound(cfg: Config, before: seq<Event>, window: seq<Event>, key: string, from: real, s: real, t: real)
    requires RefillsBeforeSweep(cfg) && cfg.burst >= 0
    requires Ordered(before + window, from)
    requires s <= t && forall i :: 0 <= i < |window| ==> s <= window[i].at <= t
    ensures Allowed(cfg, StateAfter(cfg, map[], before, true), window, key) as real
            <= cfg.burst as real + Gain(t - s, Rate(cfg))
  {
    hide Allowed, StateAfter, RefillsBeforeSweep, Rate, Gain;
    Nonnegative(t - s, Rate(cfg));
    if window == [] {
      NoneAllowed(cfg, StateAfter(cfg, map[], before, true), key);
    } else {
      OrderedSplit(before, window, from);
      RunOk(cfg, map[], before, from);
      var m := StateAfter(cfg, map[], before, true);
      var last := if before == [] then from else before[|before| - 1].at;
      WindowBound(cfg, m, window, key, last, s, t);
    }
  }

  lemma NoneAllowed(cfg: Config, m: Buckets, key: string)
    ensures Allowed(cfg, m, [], key) == 0
  {
  }

  lemma WindowBound(cfg: Config, m: Buckets, window: seq<Event>, key: string, last: real, s: real, t: real)
    requires RefillsBeforeSweep(cfg) && cfg.burst >= 0 && AllOk(cfg, m, last)
    requires Ordered(window, last) && s <= t && forall i :: 0 <= i < |window| ==> s <= window[i].at <= t
    requires window != []
    ensures Allowed(cfg, m, window, key) as real <= cfg.burst as real + Gain(t - s, Rate(cfg))
  {
    hide Allowed, RefillsBeforeSweep, Rate, Available, Gain;
    // The window starts at s, or at the last event before it if that is later.
    var start := if last < s then s else last;
    assert start <= window[0].at <= t;
    forall k | k in m ensures BucketOk(cfg, m[k], start) {
      assert BucketOk(cfg, m[k], last);
    }
    LateStart(window, last, start);
    AllowedAtMost(cfg, m, window, key, start, t);
    AvailableGrows(cfg, m, key, start, start);
    Scale(t - start, t - s, Rate(cfg));
  }

  lemma LateStart(window: seq<Event>, last: real, start: real)
    requires Ordered(window, last) && window != [] && last <= start <= window[0].at
    ensures Ordered(window, start)
  {
  }

  predicate Within(window: seq<Event>, s: real, t: real) {
    s <= t && forall i :: 0 <= i < |window| ==> s <= window[i].at <= t
  }

  /** On every trace and for every key and stretch of time. */
  ghost predicate RateBounded(cfg: Config) {
    forall before: seq<Event>, window: seq<Event>, key, from: real, s: real, t: real ::
      Ordered(before + window, from) && Within(window, s, t) ==>
        60.0 * Allowed(cfg, StateAfter(cfg, map[], before, true), window, key) as real
        <= 60.0 * cfg.burst as real + cfg.requestsPerMinute as real * (t - s)
  }

  predicate OnlyFor(trace: seq<Event>, key: string) {
    forall i :: 0 <= i < |trace| ==> trace[i].Request? ==> trace[i].key == key
  }

  lemma {:induction false} AllServed(cfg: Config, m: Buckets, trace: seq<Event>, key: string)
    requires OnlyFor(trace, key) && AllTrue(Answers(cfg, m, trace, true))
    ensures Allowed(cfg, m, trace, key) == |Answers(cfg, m, trace, true)|
    decreases |trace|
  {
    if trace != [] {
      var (m', out) := After(cfg, m, trace[0], true);
      var rest := Answers(cfg, m', trace[1..], true);
      var all := Answers(cfg, m, trace, true);
      assert all == out + rest;
      assert forall i :: 0 <= i < |rest| ==> all[|out| + i] == rest[i];
      assert trace[0].Request? ==> out == [all[0]];
      AllServed(cfg, m', trace[1..], key);
    }
  }

  lemma {:induction false} RepeatMeets(n: nat, at: real)
    ensures |Repeat(n, at)| == n
    ensures OnlyFor(Repeat(n, at), "k") && forall i :: 0 <= i < n ==> Repeat(n, at)[i].at == at
  {
    if n > 0 {
      RepeatMeets(n - 1, at);
    }
  }

  lemma BadTraceAllowed(cfg: Config, x: real)
    requires cfg.burst > 0 && cfg.interval > 0.0 && x > cfg.interval && 0.0 <= Gain(x, Rate(cfg)) < cfg.burst as real
    ensures Allowed(cfg, map[], BadTrace(cfg.burst, x), "k") == 2 * cfg.burst
    ensures Within(BadTrace(cfg.burst, x), 0.0, x)
  {
    hide After;
    var n := cfg.burst;
    RepeatMeets(n, 0.0);
    RepeatMeets(n, x);
    SecondBurst(cfg, x, true);
    AllServed(cfg, map[], BadTrace(n, x), "k");
    BadTraceAnswers(cfg, n, x);
  }

  lemma BadTraceAnswers(cfg: Config, n: nat, x: real)
    ensures |Answers(cfg, map[], BadTrace(n, x), true)| == 2 * n
  {
    hide After;
    RunAppend(cfg, map[], Repeat(n, 0.0), [Sweep(x)] + Repeat(n, x), true);
    var m := StateAfter(cfg, map[], Repeat(n, 0.0), true);
    RunAppend(cfg, m, [Sweep(x)], Repeat(n, x), true);
    RepeatAnswers(cfg, map[], n, 0.0);
    RepeatAnswers(cfg, StateAfter(cfg, m, [Sweep(x)], true), n, x);
    SweepSilent(cfg, m, x);
  }

  lemma SweepSilent(cfg: Config, m: Buckets, x: real)
    ensures Answers(cfg, m, [Sweep(x)], true) == []
  {
  }

  lemma {:induction false} RepeatAnswers(cfg: Config, m: Buckets, n: nat, at: real)
    ensures |Answers(cfg, m, Repeat(n, at), true)| == n
    decreases n
  {
    if n > 0 {
      assert Repeat(n, at)[1..] == Repeat(n - 1, at);
      RepeatAnswers(cfg, After(cfg, m, Request("k", at, at), true).0, n - 1, at);
    }
  }

  /** The bound holds on all traces under the same condition that makes the clean-up invisible: otherwise a
      drained bucket is evicted, and comes back full, too early. */
  lemma RateBoundedIff(cfg: Config)
    requires cfg.interval > 0.0
    ensures RateBounded(cfg) <==>
            cfg.burst >= 0 && cfg.requestsPerMinute as real * cfg.interval >= 60.0 * cfg.burst as real
  {
    hide Answers, Ordered, Allowed, StateAfter, Rate, Within, RefillsBeforeSweep, Gain;
    RefillsIs(cfg);
    if cfg.burst < 0 {
      EmptyWindow(cfg);
      assert Ordered([] + [], 0.0) && Within([], 0.0, 0.0);
    } else if RefillsBeforeSweep(cfg) {
      forall before: seq<Event>, window: seq<Event>, key, from: real, s: real, t: real
        | Ordered(before + window, from) && Within(window, s, t)
        ensures 60.0 * Allowed(cfg, StateAfter(cfg, map[], before, true), window, key) as real
                <= 60.0 * cfg.burst as real + cfg.requestsPerMinute as real * (t - s)
      {
        WithinIs(window, s, t);
        RateBound(cfg, before, window, key, from, s, t);
      }
    } else {
      BoundBroken(cfg);
    }
  }

  lemma RefillsIs(cfg: Config)
    ensures RefillsBeforeSweep(cfg) <==> cfg.requestsPerMinute as real * cfg.interval >= 60.0 * cfg.burst as real
  {
  }

  lemma NoTime(r: real)
    ensures Gain(0.0, r) == 0.0
  {
  }

  lemma WithinIs(window: seq<Event>, s: real, t: real)
    requires Within(window, s, t)
    ensures s <= t && forall i :: 0 <= i < |window| ==> s <= window[i].at <= t
  {
  }

  lemma EmptyWindow(cfg: Config)
    ensures Ordered([] + [], 0.0) && Within([], 0.0, 0.0) && StateAfter(cfg, map[], [], true) == map[]
    ensures Allowed(cfg, map[], [], "k") == 0
  {
  }

  lemma BoundBroken(cfg: Config)
    requires cfg.interval > 0.0 && cfg.burst >= 0 && !RefillsBeforeSweep(cfg)
    ensures !RateBounded(cfg)
  {
    hide Answers, Ordered, Allowed, StateAfter, Rate, Within, Gain;
    var x := BadMoment(cfg);
    assert cfg.burst > 0 by {
      Nonnegative(x, Rate(cfg));
    }
    EmptyWindow(cfg);
    BadTraceOrdered(cfg.burst, x);
    BadTraceAllowed(cfg, x);
    var window := BadTrace(cfg.burst, x);
    assert [] + window == window;
    assert Ordered([] + window, 0.0);
    PerMinute(cfg, x);
    assert x - 0.0 == x;
    assert Allowed(cfg, StateAfter(cfg, map[], [], true), window, "k") == 2 * cfg.burst;
  }
}

/** The fixed-window rate limiter with bounded memory, against one that never forgets a bucket. */
module RateLimit {
  import opened Prelude
  import Database

  datatype Bucket = Bucket(start: real, count: nat)

  type Buckets = map<string, Bucket>

  datatype Settings = Settings(limit: nat, window: real, maxKeys: nat)

  predicate GoodSettings(c: Settings) {
    c.limit >= 1 && c.window >= 1.0
  }

  datatype Decision = Decision(allowed: bool, retryAfter: real)

  predicate Expired(c: Settings, b: Bucket, now: real) {
    now - b.start >= c.window
  }

  /** The bucket of a key once a hit has been counted in it. */
  function Counted(c: Settings, buckets: Buckets, key: string, now: real): Bucket {
    if key !in buckets || Expired(c, buckets[key], now) then Bucket(now, 1)
    else Bucket(buckets[key].start, buckets[key].count + 1)
  }

  function Decide(c: Settings, b: Bucket, now: real): Decision {
    if b.count <= c.limit then Decision(true, 0.0)
    else Decision(false, if c.window - (now - b.start) > 0.0 then c.window - (now - b.start) else 0.0)
  }

  function Unexpired(c: Settings, buckets: Buckets, now: real): Buckets {
    map k | k in buckets && !Expired(c, buckets[k], now) :: buckets[k]
  }

  class FixedWindowRateLimiter {
    const settings: Settings
    var buckets: Buckets

    constructor (settings: Settings)
      ensures this.settings == settings && buckets == map[]
    {
      this.settings := settings;
      buckets := map[];
    }

    /** Counts one hit. */
    method Check(key: string, now: real) returns (d: Decision)
      modifies this
      ensures buckets == AfterHit(settings, true, old(buckets), key, now)
      ensures d == Decide(settings, Counted(settings, old(buckets), key, now), now)
    {
      var b := Bucket(now, 0);
      if key in buckets {
        b := buckets[key];
      }
      if now - b.start >= settings.window {
        b := Bucket(now, 0);
      }
      b := b.(count := b.count + 1);
      assert b == Counted(settings, old(buckets), key, now);
      buckets := buckets[key := b];
      if |buckets| > settings.maxKeys {
        Evict(now);
      }
      if b.count > settings.limit {
        var wait := settings.window - (now - b.start);
        return Decision(false, if wait > 0.0 then wait else 0.0);
      }
      d := Decision(true, 0.0);
    }

    /** Drops every expired bucket. */
    method Evict(now: real)
      modifies this
      ensures buckets == Unexpired(settings, old(buckets), now)
    {
      var stale := Database.Scan(set k | k in buckets && now - buckets[k].start >= settings.window);
      var all := buckets;
      for i := 0 to |stale|
        invariant buckets == map k | k in all && k !in stale[..i] :: all[k]
      {
        assert stale[..i + 1] == stale[..i] + [stale[i]];
        buckets := buckets - {stale[i]};
      }
      assert stale[..|stale|] == stale;
    }
  }

  /** The buckets after a hit; only the limiter with bounded memory evicts. */
  function AfterHit(c: Settings, evicts: bool, buckets: Buckets, key: string, now: real): Buckets {
    var counted := buckets[key := Counted(c, buckets, key, now)];
    if evicts && |counted| > c.maxKeys then Unexpired(c, counted, now) else counted
  }

  // ------------------------------------------------------------ runs

  datatype Hit = Hit(key: string, now: real)

  /** The clock never goes back. */
  predicate Monotone(hits: seq<Hit>) {
    forall i, j | 0 <= i <= j < |hits| :: hits[i].now <= hits[j].now
  }

  function After(c: Settings, evicts: bool, hits: seq<Hit>): Buckets {
    if hits == [] then map[]
    else
      var last := hits[|hits| - 1];
      AfterHit(c, evicts, After(c, evicts, hits[..|hits| - 1]), last.key, last.now)
  }

  /** What the `i`-th hit is told. */
  function Answer(c: Settings, evicts: bool, hits: seq<Hit>, i: nat): Decision
    requires i < |hits|
  {
    Decide(c, Counted(c, After(c, evicts, hits[..i]), hits[i].key, hits[i].now), hits[i].now)
  }

  /** The smaller memory differs only in buckets that have expired. */
  ghost predicate Forgets(c: Settings, small: Buckets, full: Buckets, now: real) {
    && (forall k | k in small :: k in full && full[k] == small[k])
    && (forall k | k in full && k !in small :: Expired(c, full[k], now))
  }

  lemma ForgettingStep(c: Settings, small: Buckets, full: Buckets, key: string, now: real)
    requires GoodSettings(c) && Forgets(c, small, full, now)
    ensures Counted(c, small, key, now) == Counted(c, full, key, now)
    ensures Forgets(c, AfterHit(c, true, small, key, now), AfterHit(c, false, full, key, now), now)
  {
  }

  lemma {:induction false} EvictionForgetsOnlyExpired(c: Settings, hits: seq<Hit>, now: real)
    requires GoodSettings(c) && Monotone(hits) && (hits != [] ==> hits[|hits| - 1].now <= now)
    ensures Forgets(c, After(c, true, hits), After(c, false, hits), now)
  {
    if hits != [] {
      var last := hits[|hits| - 1];
      EvictionForgetsOnlyExpired(c, hits[..|hits| - 1], last.now);
      ForgettingStep(c, After(c, true, hits[..|hits| - 1]), After(c, false, hits[..|hits| - 1]), last.key, last.now);
    }
  }

  /** Eviction is transparent: every hit is told what a limiter that never evicts would tell it. */
  lemma EvictionIsTransparent(c: Settings, hits: seq<Hit>, i: nat)
    requires GoodSettings(c) && Monotone(hits) && i < |hits|
    ensures Answer(c, true, hits, i) == Answer(c, false, hits, i)
  {
    EvictionForgetsOnlyExpired(c, hits[..i], hits[i].now);
  }

  // ------------------------------------------------------------ how many hits get through

  predicate InWindow(c: Settings, from: real, t: real) {
    from <= t < from + c.window
  }

  /** The admitted hits of one key within a window's length from `from`. */
  function AdmittedFrom(c: Settings, evicts: bool, hits: seq<Hit>, key: string, from: real): nat {
    if hits == [] then 0
    else
      var n := |hits| - 1;
      AdmittedFrom(c, evicts, hits[..n], key, from) +
      if hits[n].key == key && InWindow(c, from, hits[n].now) && Answer(c, evicts, hits, n).allowed then 1 else 0
  }

  function Capped(c: Settings, n: nat): nat {
    if n < c.limit then n else c.limit
  }

  /** How many admitted hits a key can have in the window, given its current bucket. */
  ghost predicate Within(c: Settings, buckets: Buckets, key: string, from: real, admitted: nat) {
    if key !in buckets then admitted == 0
    else
      var b := buckets[key];
      && b.count >= 1
      && (b.start < from ==> admitted + 1 <= Capped(c, b.count))
      && (from <= b.start < from + c.window ==> admitted + 1 <= c.limit + Capped(c, b.count))
      && admitted + 1 <= 2 * c.limit
  }

  lemma OwnHitStep(c: Settings, buckets: Buckets, key: string, now: real, from: real, admitted: nat)
    requires GoodSettings(c) && Within(c, buckets, key, from, admitted) && (now < from ==> admitted == 0)
    requires key in buckets ==> buckets[key].start <= now
    ensures var b := Counted(c, buckets, key, now);
      var more := admitted + if InWindow(c, from, now) && Decide(c, b, now).allowed then 1 else 0;
      && Within(c, AfterHit(c, false, buckets, key, now), key, from, more)
  {
  }

  lemma {:induction false} WindowHolds(c: Settings, hits: seq<Hit>, key: string, from: real)
    requires GoodSettings(c) && Monotone(hits)
    ensures Within(c, After(c, false, hits), key, from, AdmittedFrom(c, false, hits, key, from))
    ensures key in After(c, false, hits) ==> After(c, false, hits)[key].start <= hits[|hits| - 1].now
    ensures hits != [] && hits[|hits| - 1].now < from ==> AdmittedFrom(c, false, hits, key, from) == 0
  {
    if hits != [] {
      var n := |hits| - 1;
      WindowHolds(c, hits[..n], key, from);
      if hits[n].key == key {
        OwnHitStep(c, After(c, false, hits[..n]), key, hits[n].now, from, AdmittedFrom(c, false, hits[..n], key, from));
      }
    }
  }

  lemma {:induction false} SameAdmissions(c: Settings, hits: seq<Hit>, key: string, from: real)
    requires GoodSettings(c) && Monotone(hits)
    ensures AdmittedFrom(c, true, hits, key, from) == AdmittedFrom(c, false, hits, key, from)
  {
    if hits != [] {
      SameAdmissions(c, hits[..|hits| - 1], key, from);
      EvictionIsTransparent(c, hits, |hits| - 1);
    }
  }

  /**
   In any half-open interval one window long, fewer than twice the limit of a key's hits get through: the first hit of
   a bucket opens it, so two buckets never fit all of theirs into one interval.
   */
  lemma FewerThanTwiceTheLimit(c: Settings, hits: seq<Hit>, key: string, from: real)
    requires GoodSettings(c) && Monotone(hits)
    ensures AdmittedFrom(c, true, hits, key, from) <= 2 * c.limit - 1
  {
    SameAdmissions(c, hits, key, from);
    WindowHolds(c, hits, key, from);
  }

  // ------------------------------------------------------------ one bucket

  /** The admitted hits of one key that were counted in the bucket opened at `start`. */
  function AdmittedIn(c: Settings, hits: seq<Hit>, key: string, start: real): nat {
    if hits == [] then 0
    else
      var n := |hits| - 1;
      var b := Counted(c, After(c, false, hits[..n]), hits[n].key, hits[n].now);
      AdmittedIn(c, hits[..n], key, start) +
      if hits[n].key == key && b.start == start && b.count <= c.limit then 1 else 0
  }

  lemma {:induction false} BucketHolds(c: Settings, hits: seq<Hit>, key: string, start: real)
    requires GoodSettings(c) && Monotone(hits)
    ensures var b, admitted := After(c, false, hits), AdmittedIn(c, hits, key, start);
      && (key !in b ==> admitted == 0)
      && (key in b ==> b[key].start <= hits[|hits| - 1].now)
      && (key in b && b[key].start < start ==> admitted == 0)
      && (key in b && b[key].start == start ==> admitted == Capped(c, b[key].count))
      && admitted <= c.limit
  {
    if hits != [] {
      var n := |hits| - 1;
      BucketHolds(c, hits[..n], key, start);
    }
  }

  /** A single bucket admits at most the limit. */
  lemma BucketAdmitsLimit(c: Settings, hits: seq<Hit>, key: string, start: real)
    requires GoodSettings(c) && Monotone(hits)
    ensures AdmittedIn(c, hits, key, start) <= c.limit
  {
    BucketHolds(c, hits, key, start);
  }

  // ------------------------------------------------------------ waiting

  lemma {:induction false} OthersLeaveBucket(c: Settings, hits: seq<Hit>, others: seq<Hit>, key: string)
    requires forall i | 0 <= i < |others| :: others[i].key != key
    ensures var before, after := After(c, false, hits), After(c, false, hits + others);
      (key in before <==> key in after) && (key in before ==> after[key] == before[key])
  {
    if others == [] {
      assert hits + others == hits;
    } else {
      var n := |others| - 1;
      assert (hits + others)[..|hits + others| - 1] == hits + others[..n];
      OthersLeaveBucket(c, hits, others[..n], key);
    }
  }

  /** A rejected caller that waits as long as it was told is admitted, whatever hits of other keys come in between. */
  lemma WaitingIsRewarded(c: Settings, hits: seq<Hit>, others: seq<Hit>, again: Hit)
    requires GoodSettings(c) && hits != [] && Monotone(hits + others + [again])
    requires var last := hits[|hits| - 1];
      again.key == last.key && forall i | 0 <= i < |others| :: others[i].key != last.key
    requires var d := Answer(c, true, hits, |hits| - 1); !d.allowed && again.now >= hits[|hits| - 1].now + d.retryAfter
    ensures Answer(c, true, hits + others + [again], |hits + others|).allowed
  {
    var all := hits + others + [again];
    var n := |hits| - 1;
    assert all[..|hits + others|] == hits + others && all[..|hits|] == hits;
    assert Monotone(hits) by {
      assert forall i | 0 <= i < |hits| :: hits[i] == all[i];
    }
    EvictionIsTransparent(c, all, |hits + others|);
    EvictionIsTransparent(c, hits, n);
    OthersLeaveBucket(c, hits, others, again.key);
    assert After(c, false, hits)[again.key] == Counted(c, After(c, false, hits[..n]), hits[n].key, hits[n].now);
  }

  // ------------------------------------------------------------ the bound is reached

  function Repeated(key: string, now: real, n: nat): seq<Hit> {
    seq(n, _ => Hit(key, now))
  }

  /**
   One hit at 0, the rest of the limit some time into the window, and a whole new bucket's worth as the window ends.
   */
  function Burst(c: Settings, key: string, later: real): seq<Hit>
    requires GoodSettings(c)
  {
    [Hit(key, 0.0)] + Repeated(key, later, c.limit - 1) + Repeated(key, c.window, c.limit)
  }

  lemma OneMoreHit(c: Settings, hits: seq<Hit>, hit: Hit, from: real)
    ensures After(c, false, hits + [hit]) == AfterHit(c, false, After(c, false, hits), hit.key, hit.now)
    ensures AdmittedFrom(c, false, hits + [hit], hit.key, from) == AdmittedFrom(c, false, hits, hit.key, from) +
      if InWindow(c, from, hit.now) && Counted(c, After(c, false, hits), hit.key, hit.now).count <= c.limit then 1
      else 0
  {
    var all := hits + [hit];
    assert all[..|all| - 1] == hits && all[|all| - 1] == hit && all[..|hits|] == hits;
  }

  lemma OneMoreRepeat(hits: seq<Hit>, key: string, now: real, n: nat)
    requires n > 0
    ensures hits + Repeated(key, now, n) == hits + Repeated(key, now, n - 1) + [Hit(key, now)]
    ensures hits + Repeated(key, now, 0) == hits
  {
  }

  /** The bucket after a key's `n` hits at one time. */
  function Topped(c: Settings, buckets: Buckets, key: string, now: real, n: nat): Bucket {
    if key !in buckets || Expired(c, buckets[key], now) then Bucket(now, n)
    else Bucket(buckets[key].start, buckets[key].count + n)
  }

  /** Repeated hits in one bucket all get through as long as the limit lasts. */
  lemma {:induction false} RepeatedGetThrough(c: Settings, hits: seq<Hit>, key: string, now: real, n: nat, from: real)
    requires GoodSettings(c) && InWindow(c, from, now)
    requires Topped(c, After(c, false, hits), key, now, n).count <= c.limit
    ensures AdmittedFrom(c, false, hits + Repeated(key, now, n), key, from) ==
      AdmittedFrom(c, false, hits, key, from) + n
    ensures n > 0 ==>
      var a := After(c, false, hits + Repeated(key, now, n));
      key in a && a[key] == Topped(c, After(c, false, hits), key, now, n)
  {
    if n == 0 {
      assert hits + Repeated(key, now, n) == hits;
    } else {
      OneMoreRepeat(hits, key, now, n);
      RepeatedGetThrough(c, hits, key, now, n - 1, from);
      OneMoreHit(c, hits + Repeated(key, now, n - 1), Hit(key, now), from);
    }
  }

  lemma FirstHitOpens(c: Settings, key: string, later: real)
    requires GoodSettings(c) && 0.0 < later
    ensures After(c, false, [Hit(key, 0.0)]) == map[key := Bucket(0.0, 1)]
    ensures AdmittedFrom(c, false, [Hit(key, 0.0)], key, later) == 0
  {
    OneMoreHit(c, [], Hit(key, 0.0), later);
    assert [] + [Hit(key, 0.0)] == [Hit(key, 0.0)];
  }

  lemma {:induction false} OneKeyOneBucket(c: Settings, hits: seq<Hit>, key: string)
    requires forall i | 0 <= i < |hits| :: hits[i].key == key
    ensures After(c, false, hits).Keys == if hits == [] then {} else {key}
  {
    if hits != [] {
      OneKeyOneBucket(c, hits[..|hits| - 1], key);
    }
  }

  /** The part of the burst that falls into the first bucket. */
  lemma FirstBucketFilled(c: Settings, key: string, later: real)
    requires GoodSettings(c) && 0.0 < later < c.window
    ensures var hits := [Hit(key, 0.0)] + Repeated(key, later, c.limit - 1);
      && After(c, false, hits) == map[key := Bucket(0.0, c.limit)]
      && AdmittedFrom(c, false, hits, key, later) == c.limit - 1
  {
    var first := [Hit(key, 0.0)];
    FirstHitOpens(c, key, later);
    RepeatedGetThrough(c, first, key, later, c.limit - 1, later);
    OneKeyOneBucket(c, first + Repeated(key, later, c.limit - 1), key);
    if c.limit == 1 {
      assert first + Repeated(key, later, 0) == first;
    }
  }

  /** The part that falls into the second bucket. */
  lemma SecondBucketFilled(c: Settings, hits: seq<Hit>, key: string, later: real)
    requires GoodSettings(c) && 0.0 < later < c.window && After(c, false, hits) == map[key := Bucket(0.0, c.limit)]
    ensures AdmittedFrom(c, false, hits + Repeated(key, c.window, c.limit), key, later) ==
        AdmittedFrom(c, false, hits, key, later) + c.limit
  {
    RepeatedGetThrough(c, hits, key, c.window, c.limit, later);
  }

  lemma BurstIsMonotone(c: Settings, key: string, later: real)
    requires GoodSettings(c) && 0.0 < later < c.window
    ensures Monotone(Burst(c, key, later))
  {
  }

  /**
   The bound cannot be lowered: some run lets exactly one less than twice the limit through within one window's
   length.
   */
  lemma BurstReachesBound(c: Settings, key: string, later: real)
    requires GoodSettings(c) && 0.0 < later < c.window
    ensures Monotone(Burst(c, key, later)) && AdmittedFrom(c, true, Burst(c, key, later), key, later) == 2 * c.limit - 1
  {
    FirstBucketFilled(c, key, later);
    SecondBucketFilled(c, [Hit(key, 0.0)] + Repeated(key, later, c.limit - 1), key, later);
    BurstIsMonotone(c, key, later);
    SameAdmissions(c, Burst(c, key, later), key, later);
  }
}

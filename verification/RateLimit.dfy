/** The in-process rate limiter: token buckets created on first use, one per (scope, key).

    Time is a real number read from a monotonic clock, and token counts are reals. */
module RateLimit {
  type Time = real

  function Min(a: real, b: real): real {
    if a <= b then a else b
  }

  /** What changes in a bucket: the level and when it was last topped up. */
  datatype Bucket = Bucket(tokens: real, last: Time)

  function Consume(capacity: real, rate: real, b: Bucket, now: Time, cost: real): (Bucket, bool) {
    var level := Min(capacity, b.tokens + (now - b.last) * rate);
    if level >= cost then (Bucket(level - cost, now), true)
    else (Bucket(level, now), false)
  }

  class TokenBucket {
    const capacity: real
    const rate: real
    var tokens: real
    var lastRefill: Time

    function View(): Bucket
      reads this
    {
      Bucket(tokens, lastRefill)
    }

    constructor (capacity: real, rate: real, now: Time)
      ensures this.capacity == capacity && this.rate == rate
      ensures View() == Bucket(capacity, now)
    {
      this.capacity, this.rate := capacity, rate;
      tokens, lastRefill := capacity, now;
    }

    method TryConsume(now: Time, cost: real) returns (granted: bool)
      modifies this
      ensures (View(), granted) == Consume(capacity, rate, old(View()), now, cost)
    {
      var elapsed := now - lastRefill;
      tokens := Min(capacity, tokens + elapsed * rate);
      lastRefill := now;
      if tokens >= cost {
        tokens := tokens - cost;
        return true;
      }
      return false;
    }
  }

  // ----- the limiter's own buckets: ten tokens, ten a minute ------------------------

  const CAPACITY: real := 10.0
  const RATE: real := 10.0 / 60.0

  function Full(now: Time): Bucket {
    Bucket(10.0, now)
  }

  /** The level at `now`, before anything is taken. */
  function Level(b: Bucket, now: Time): real {
    Min(10.0, b.tokens + (now - b.last) / 6.0)
  }

  /** A unit request to one of the limiter's buckets. */
  function TryConsume(b: Bucket, now: Time): (r: (Bucket, bool))
    ensures r == Consume(CAPACITY, RATE, b, now, 1.0)
  {
    var level := Level(b, now);
    assert (now - b.last) * RATE == (now - b.last) / 6.0;
    if level >= 1.0 then (Bucket(level - 1.0, now), true)
    else (Bucket(level, now), false)
  }

  // ----- the map of buckets ---------------------------------------------------------

  datatype Key = Key(scope: string, key: string)

  type Buckets = map<Key, Bucket>

  /** The bucket a key answers with: a full one when the key is new. */
  function BucketFor(m: Buckets, key: Key, now: Time): Bucket {
    if key in m then m[key] else Full(now)
  }

  function Check(m: Buckets, key: Key, now: Time): (Buckets, bool) {
    var (b, granted) := TryConsume(BucketFor(m, key, now), now);
    (m[key := b], granted)
  }

  /** The process-wide dictionary of buckets. */
  class RateLimiter {
    var buckets: map<Key, TokenBucket>

    /** Each key has a bucket object of its own, with the limiter's parameters. */
    ghost predicate Valid()
      reads this
    {
      && (forall j, k :: j in buckets && k in buckets && j != k ==> buckets[j] != buckets[k])
      && (forall k :: k in buckets ==> buckets[k].capacity == CAPACITY && buckets[k].rate == RATE)
    }

    ghost function Objects(): set<TokenBucket>
      reads this
    {
      set k | k in buckets :: buckets[k]
    }

    ghost function View(): Buckets
      reads this, Objects()
    {
      map k | k in buckets :: buckets[k].View()
    }

    constructor ()
      ensures Valid() && View() == map[] && Objects() == {}
    {
      buckets := map[];
    }

    method CheckRateLimit(key: Key, now: Time) returns (granted: bool)
      requires Valid()
      modifies this, Objects()
      ensures Valid() && fresh(Objects() - old(Objects()))
      ensures (View(), granted) == Check(old(View()), key, now)
    {
      ghost var before := View();
      if key !in buckets {
        var fullBucket := new TokenBucket(CAPACITY, RATE, now);
        buckets := buckets[key := fullBucket];
      }
      var bucket := buckets[key];
      granted := bucket.TryConsume(now, 1.0);
      assert View() == before[key := bucket.View()] by {
        assert forall k :: k in buckets && k != key ==> buckets[k] != bucket;
      }
    }
  }
}

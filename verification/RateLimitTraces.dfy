/** What a token bucket does over a whole trace of unit requests, and what the dictionary
    of buckets does over a mix of keys. */
module RateLimitTraces {
  import opened RateLimit

  /** Time never runs backwards. */
  predicate Monotone(start: Time, times: seq<Time>)
    decreases |times|
  {
    times == [] || (start <= times[0] && Monotone(times[0], times[1..]))
  }

  /** The verdicts of one bucket on a trace of unit requests. */
  function Run(b: Bucket, times: seq<Time>): (verdicts: seq<bool>)
    ensures |verdicts| == |times|
    decreases |times|
  {
    if times == [] then []
    else
      var (b', granted) := TryConsume(b, times[0]);
      [granted] + Run(b', times[1..])
  }

  /** The bucket after a trace. */
  function After(b: Bucket, times: seq<Time>): Bucket
    decreases |times|
  {
    if times == [] then b else After(TryConsume(b, times[0]).0, times[1..])
  }

  function One(granted: bool): nat {
    if granted then 1 else 0
  }

  function Grants(verdicts: seq<bool>): nat {
    if verdicts == [] then 0 else One(verdicts[0]) + Grants(verdicts[1..])
  }

  /** Grants at times within [t1, t2]. */
  function GrantsIn(times: seq<Time>, verdicts: seq<bool>, t1: Time, t2: Time): nat
    requires |times| == |verdicts|
    decreases |times|
  {
    if times == [] then 0
    else One(verdicts[0] && t1 <= times[0] <= t2) + GrantsIn(times[1..], verdicts[1..], t1, t2)
  }

  // ----- tokens stay within bounds --------------------------------------------------

  predicate Valid(b: Bucket) {
    0.0 <= b.tokens <= 10.0
  }

  lemma LevelBounds(b: Bucket, now: Time)
    requires Valid(b) && b.last <= now
    ensures 0.0 <= Level(b, now) <= 10.0
    ensures b.tokens <= Level(b, now) <= b.tokens + (now - b.last) / 6.0
  {
  }

  /** Every state of a trace keeps 0 <= tokens <= capacity. */
  lemma {:induction false} TraceKeepsValid(b: Bucket, times: seq<Time>, n: nat)
    requires Valid(b) && Monotone(b.last, times) && n <= |times|
    ensures Valid(After(b, times[..n]))
    decreases n
  {
    if n > 0 {
      LevelBounds(b, times[0]);
      TraceKeepsValid(TryConsume(b, times[0]).0, times[1..], n - 1);
      assert times[..n][1..] == times[1..][..n - 1];
    }
  }

  /** Refilling in two steps is refilling in one. */
  lemma LevelSplits(b: Bucket, mid: Time, now: Time)
    requires Valid(b) && b.last <= mid <= now
    ensures Level(Bucket(Level(b, mid), mid), now) == Level(b, now)
  {
  }

  // ----- window bound ---------------------------------------------------------------

  lemma {:induction false} NoneAfter(start: Time, times: seq<Time>, verdicts: seq<bool>, t1: Time, t2: Time)
    requires |times| == |verdicts| && Monotone(start, times) && t2 < start
    ensures GrantsIn(times, verdicts, t1, t2) == 0
    decreases |times|
  {
    if times != [] {
      NoneAfter(times[0], times[1..], verdicts[1..], t1, t2);
    }
  }

  /** Grants up to t2 are paid for by the tokens at hand and by the refill until t2. */
  lemma {:induction false} GrantsArePaidFor(b: Bucket, times: seq<Time>, t1: Time, t2: Time)
    requires Valid(b) && Monotone(b.last, times) && b.last <= t2
    ensures GrantsIn(times, Run(b, times), t1, t2) as real <= b.tokens + (t2 - b.last) / 6.0
    decreases |times|
  {
    if times != [] {
      var now := times[0];
      var b' := TryConsume(b, now).0;
      LevelBounds(b, now);
      if now <= t2 {
        GrantsArePaidFor(b', times[1..], t1, t2);
      } else {
        NoneAfter(now, times[1..], Run(b', times[1..]), t1, t2);
      }
    }
  }

  /** In any window a bucket grants at most ten requests plus one for every six seconds. */
  lemma {:induction false} WindowBound(b: Bucket, times: seq<Time>, t1: Time, t2: Time)
    requires Valid(b) && Monotone(b.last, times) && t1 <= t2
    ensures GrantsIn(times, Run(b, times), t1, t2) as real <= 10.0 + (t2 - t1) / 6.0
    decreases |times|
  {
    if times != [] {
      var now := times[0];
      var b' := TryConsume(b, now).0;
      LevelBounds(b, now);
      if now < t1 {
        WindowBound(b', times[1..], t1, t2);
      } else if now > t2 {
        NoneAfter(now, times[1..], Run(b', times[1..]), t1, t2);
      } else {
        GrantsArePaidFor(b', times[1..], t1, t2);
      }
    }
  }

  /** The bound is met: of n requests at one instant to a bucket holding k whole tokens,
      min(n, k) are granted. */
  lemma {:induction false} BurstIsTight(b: Bucket, n: nat, k: nat)
    requires Valid(b) && b.tokens == k as real
    ensures Grants(Run(b, seq(n, _ => b.last))) == if n <= k then n else k
    decreases n
  {
    if n > 0 {
      var times := seq(n, _ => b.last);
      assert times[1..] == seq(n - 1, _ => b.last);
      var (b', granted) := TryConsume(b, b.last);
      BurstIsTight(b', n - 1, k - One(granted));
    }
  }

  /** n requests, one every six seconds after the start. */
  function Spaced(start: Time, n: nat): seq<Time>
    decreases n
  {
    if n == 0 then [] else [start + 6.0] + Spaced(start + 6.0, n - 1)
  }

  /** k requests at once, then n more, one every six seconds. */
  function BurstThenSpaced(start: Time, k: nat, n: nat): seq<Time> {
    if k == 0 then Spaced(start, n) else [start] + BurstThenSpaced(start, k - 1, n)
  }

  /** Every one of them is granted, by a bucket that held k whole tokens. */
  lemma {:induction false} AllAreGranted(b: Bucket, k: nat, n: nat, t1: Time, t2: Time)
    requires Valid(b) && b.tokens == k as real && t1 <= b.last && b.last + 6.0 * n as real <= t2
    ensures var times := BurstThenSpaced(b.last, k, n); GrantsIn(times, Run(b, times), t1, t2) == k + n
    decreases k + n
  {
    var times := BurstThenSpaced(b.last, k, n);
    if k + n > 0 {
      var b' := TryConsume(b, times[0]).0;
      if k > 0 {
        AllAreGranted(b', k - 1, n, t1, t2);
        assert times[1..] == BurstThenSpaced(b.last, k - 1, n);
      } else {
        AllAreGranted(b', 0, n - 1, t1, t2);
        assert times[1..] == BurstThenSpaced(b'.last, 0, n - 1);
      }
    }
  }

  /** The window bound is tight for windows of every length: a full bucket grants ten requests at
      once and then one every six seconds, as many as the bound allows. */
  lemma WindowBoundIsTight(b: Bucket, t: Time)
    requires b.tokens == 10.0 && b.last <= t
    ensures var n := ((t - b.last) / 6.0).Floor;
            && n >= 0
            && var times := BurstThenSpaced(b.last, 10, n);
            GrantsIn(times, Run(b, times), b.last, t) == 10 + n
  {
    AllAreGranted(b, 10, ((t - b.last) / 6.0).Floor, b.last, t);
  }

  /** Twenty requests of one key are granted within sixty seconds. */
  lemma TwentyInAMinute(b: Bucket)
    requires b.tokens == 10.0
    ensures var times := BurstThenSpaced(b.last, 10, 10);
            GrantsIn(times, Run(b, times), b.last, b.last + 60.0) == 20
  {
    AllAreGranted(b, 10, 10, b.last, b.last + 60.0);
  }

  // ----- greedy optimality ----------------------------------------------------------

  /** A schedule of grants that never drives the refilling bucket below zero. */
  predicate Feasible(b: Bucket, times: seq<Time>, schedule: seq<bool>)
    requires |schedule| == |times|
    decreases |times|
  {
    times == [] ||
    var left := Level(b, times[0]) - One(schedule[0]) as real;
    left >= 0.0 && Feasible(Bucket(left, times[0]), times[1..], schedule[1..])
  }

  /** try_consume is itself a feasible schedule. */
  lemma {:induction false} RunIsFeasible(b: Bucket, times: seq<Time>)
    requires Valid(b) && Monotone(b.last, times)
    ensures Feasible(b, times, Run(b, times))
    decreases |times|
  {
    if times != [] {
      LevelBounds(b, times[0]);
      RunIsFeasible(TryConsume(b, times[0]).0, times[1..]);
    }
  }

  /** A schedule that is ahead by at most d tokens can be ahead by at most d grants. */
  lemma {:induction false} ScheduleLead(x: Bucket, y: Bucket, d: nat, times: seq<Time>, schedule: seq<bool>)
    requires Valid(x) && x.last == y.last
    requires y.tokens <= x.tokens + d as real
    requires Monotone(x.last, times) && |schedule| == |times| && Feasible(y, times, schedule)
    ensures Grants(schedule) <= Grants(Run(x, times)) + d
    decreases |times|
  {
    if times != [] {
      var now := times[0];
      var (x', granted) := TryConsume(x, now);
      var y' := Bucket(Level(y, now) - One(schedule[0]) as real, now);
      LevelBounds(x, now);
      assert Level(y, now) <= Level(x, now) + d as real;
      ScheduleLead(x', y', d + One(granted) - One(schedule[0]), times[1..], schedule[1..]);
    }
  }

  lemma {:induction false} RunPrefix(b: Bucket, times: seq<Time>, n: nat)
    requires n <= |times|
    ensures Run(b, times)[..n] == Run(b, times[..n])
    decreases |times|
  {
    if n > 0 {
      RunPrefix(TryConsume(b, times[0]).0, times[1..], n - 1);
      assert times[..n][1..] == times[1..][..n - 1];
    }
  }

  lemma {:induction false} FeasiblePrefix(b: Bucket, times: seq<Time>, schedule: seq<bool>, n: nat)
    requires n <= |times| == |schedule| && Feasible(b, times, schedule)
    ensures Feasible(b, times[..n], schedule[..n])
    decreases |times|
  {
    if n > 0 {
      var left := Level(b, times[0]) - One(schedule[0]) as real;
      FeasiblePrefix(Bucket(left, times[0]), times[1..], schedule[1..], n - 1);
      assert times[..n][1..] == times[1..][..n - 1];
      assert schedule[..n][1..] == schedule[1..][..n - 1];
    }
  }

  lemma {:induction false} MonotonePrefix(start: Time, times: seq<Time>, n: nat)
    requires n <= |times| && Monotone(start, times)
    ensures Monotone(start, times[..n])
    decreases |times|
  {
    if n > 0 {
      MonotonePrefix(times[0], times[1..], n - 1);
      assert times[..n][1..] == times[1..][..n - 1];
    }
  }

  /** After every prefix of a trace, no feasible schedule has granted more. */
  lemma GreedyIsOptimal(b: Bucket, times: seq<Time>, schedule: seq<bool>, n: nat)
    requires Valid(b) && Monotone(b.last, times)
    requires n <= |times| == |schedule| && Feasible(b, times, schedule)
    ensures Grants(schedule[..n]) <= Grants(Run(b, times)[..n])
  {
    RunPrefix(b, times, n);
    FeasiblePrefix(b, times, schedule, n);
    MonotonePrefix(b.last, times, n);
    ScheduleLead(b, b, 0, times[..n], schedule[..n]);
  }

  // ----- refusals cost nothing ------------------------------------------------------

  /** A refused request leaves a bucket that answers the next one as it would have anyway. */
  lemma RefusedIsSkipped(b: Bucket, now: Time, next: Time)
    requires Valid(b) && b.last <= now <= next && !TryConsume(b, now).1
    ensures TryConsume(TryConsume(b, now).0, next) == TryConsume(b, next)
  {
    LevelBounds(b, now);
    LevelSplits(b, now, next);
  }

  lemma RunFirst(b: Bucket, times: seq<Time>)
    requires times != []
    ensures Run(b, times) == [TryConsume(b, times[0]).1] + Run(TryConsume(b, times[0]).0, times[1..])
  {
  }

  lemma RunAfterRefusal(b: Bucket, times: seq<Time>)
    requires Valid(b) && Monotone(b.last, times) && times != [] && !TryConsume(b, times[0]).1
    ensures Run(TryConsume(b, times[0]).0, times[1..]) == Run(b, times[1..])
  {
    hide TryConsume, Run;
    if |times| > 1 {
      RefusedIsSkipped(b, times[0], times[1]);
      RunFirst(b, times[1..]);
      RunFirst(TryConsume(b, times[0]).0, times[1..]);
    } else {
      assert times[1..] == [];
    }
  }

  lemma ConsumeKeepsValid(b: Bucket, now: Time)
    requires Valid(b) && b.last <= now
    ensures Valid(TryConsume(b, now).0) && TryConsume(b, now).0.last == now
  {
    LevelBounds(b, now);
  }

  /** Deleting a refused request leaves every other verdict as it was. */
  lemma {:induction false} RefusalCostsNothing(b: Bucket, times: seq<Time>, k: nat)
    requires Valid(b) && Monotone(b.last, times)
    requires k < |times| && !Run(b, times)[k]
    ensures Run(b, times[..k] + times[k + 1..]) == Run(b, times)[..k] + Run(b, times)[k + 1..]
    decreases |times|
  {
    hide TryConsume, Run;
    RunFirst(b, times);
    var b' := TryConsume(b, times[0]).0;
    ConsumeKeepsValid(b, times[0]);
    var shorter := times[..k] + times[k + 1..];
    if k == 0 {
      assert shorter == times[1..];
      RunAfterRefusal(b, times);
    } else {
      RefusalCostsNothing(b', times[1..], k - 1);
      RunFirst(b, shorter);
      assert shorter[1..] == times[1..][..k - 1] + times[1..][k..];
    }
  }

  // ----- laziness is invisible ------------------------------------------------------

  datatype Request = Request(key: Key, at: Time)

  function RunMap(m: Buckets, requests: seq<Request>): (verdicts: seq<bool>)
    ensures |verdicts| == |requests|
    decreases |requests|
  {
    if requests == [] then []
    else
      var (m', granted) := Check(m, requests[0].key, requests[0].at);
      [granted] + RunMap(m', requests[1..])
  }

  function TimesOf(requests: seq<Request>, key: Key): seq<Time>
    decreases |requests|
  {
    if requests == [] then []
    else (if requests[0].key == key then [requests[0].at] else []) + TimesOf(requests[1..], key)
  }

  function VerdictsOf(requests: seq<Request>, verdicts: seq<bool>, key: Key): seq<bool>
    requires |requests| == |verdicts|
    decreases |requests|
  {
    if requests == [] then []
    else (if requests[0].key == key then [verdicts[0]] else [])
         + VerdictsOf(requests[1..], verdicts[1..], key)
  }

  predicate MonotoneRequests(start: Time, requests: seq<Request>)
    decreases |requests|
  {
    requests == [] || (start <= requests[0].at && MonotoneRequests(requests[0].at, requests[1..]))
  }

  /** A bucket that was full from the start answers like one that is full now. */
  lemma FullIsFull(start: Time, now: Time)
    requires start <= now
    ensures TryConsume(Full(start), now) == TryConsume(Full(now), now)
  {
  }

  /** Whatever other keys do, each key sees the verdicts of a bucket of its own that existed
      from the start. */
  lemma {:induction false} LazyBucketsAreIndependent(m: Buckets, requests: seq<Request>, key: Key, start: Time)
    requires MonotoneRequests(start, requests)
    ensures VerdictsOf(requests, RunMap(m, requests), key)
         == Run(BucketFor(m, key, start), TimesOf(requests, key))
    decreases |requests|
  {
    if requests != [] {
      var r := requests[0];
      var (m', granted) := Check(m, r.key, r.at);
      LazyBucketsAreIndependent(m', requests[1..], key, r.at);
      if r.key == key {
        var times := TimesOf(requests, key);
        assert times[1..] == TimesOf(requests[1..], key);
        FullIsFull(start, r.at);
      } else {
        var rest := TimesOf(requests[1..], key);
        assert TimesOf(requests, key) == rest;
        assert VerdictsOf(requests, RunMap(m, requests), key)
            == VerdictsOf(requests[1..], RunMap(m', requests[1..]), key);
        assert BucketFor(m', key, r.at) == BucketFor(m, key, r.at);
        if key !in m && rest != [] {
          TimesAfter(r.at, requests[1..], key);
          FullIsFull(start, rest[0]);
          FullIsFull(r.at, rest[0]);
        }
      }
    }
  }

  lemma {:induction false} TimesAfter(start: Time, requests: seq<Request>, key: Key)
    requires MonotoneRequests(start, requests)
    ensures Monotone(start, TimesOf(requests, key))
    decreases |requests|
  {
    if requests != [] {
      TimesAfter(requests[0].at, requests[1..], key);
      var rest := TimesOf(requests[1..], key);
      if requests[0].key == key {
        assert TimesOf(requests, key)[1..] == rest;
      } else {
        assert TimesOf(requests, key) == rest;
      }
    }
  }

  // ----- the two limits of an enrolment ---------------------------------------------

  datatype EnrolRequest = EnrolRequest(at: Time, sourceIp: string, serial: string)

  function IpKey(sourceIp: string): Key { Key("auto-enroll-ip", sourceIp) }

  function SerialKey(serial: string): Key { Key("auto-enroll-serial", serial) }

  /** An enrolment asks both limits, even when the first refuses. */
  function CheckEnrol(m: Buckets, r: EnrolRequest): (Buckets, bool) {
    var (m1, ipOk) := Check(m, IpKey(r.sourceIp), r.at);
    var (m2, serialOk) := Check(m1, SerialKey(r.serial), r.at);
    (m2, ipOk && serialOk)
  }

  /** How many enrolments of one serial pass within [t1, t2]. */
  function PassesIn(m: Buckets, requests: seq<EnrolRequest>, serial: string, t1: Time, t2: Time): nat
    decreases |requests|
  {
    if requests == [] then 0
    else
      var r := requests[0];
      var (m', pass) := CheckEnrol(m, r);
      One(pass && r.serial == serial && t1 <= r.at <= t2) + PassesIn(m', requests[1..], serial, t1, t2)
  }

  predicate MonotoneEnrols(start: Time, requests: seq<EnrolRequest>)
    decreases |requests|
  {
    requests == [] || (start <= requests[0].at && MonotoneEnrols(requests[0].at, requests[1..]))
  }

  function SerialTimes(requests: seq<EnrolRequest>, serial: string): seq<Time>
    decreases |requests|
  {
    if requests == [] then []
    else (if requests[0].serial == serial then [requests[0].at] else []) + SerialTimes(requests[1..], serial)
  }

  lemma {:induction false} SerialTimesAfter(start: Time, requests: seq<EnrolRequest>, serial: string)
    requires MonotoneEnrols(start, requests)
    ensures Monotone(start, SerialTimes(requests, serial))
    decreases |requests|
  {
    if requests != [] {
      SerialTimesAfter(requests[0].at, requests[1..], serial);
      var rest := SerialTimes(requests[1..], serial);
      if requests[0].serial == serial {
        assert SerialTimes(requests, serial)[1..] == rest;
      } else {
        assert SerialTimes(requests, serial) == rest;
      }
    }
  }

  lemma {:induction false} PassesAreSerialGrants(m: Buckets, requests: seq<EnrolRequest>, serial: string,
                                                 start: Time, t1: Time, t2: Time)
    requires MonotoneEnrols(start, requests)
    ensures PassesIn(m, requests, serial, t1, t2)
         <= GrantsIn(SerialTimes(requests, serial),
                     Run(BucketFor(m, SerialKey(serial), start), SerialTimes(requests, serial)), t1, t2)
    decreases |requests|
  {
    if requests != [] {
      var r := requests[0];
      var key := SerialKey(serial);
      var m1 := Check(m, IpKey(r.sourceIp), r.at).0;
      var (m', pass) := CheckEnrol(m, r);
      var times := SerialTimes(requests, serial);
      var rest := SerialTimes(requests[1..], serial);
      PassesAreSerialGrants(m', requests[1..], serial, r.at, t1, t2);
      assert BucketFor(m1, key, r.at) == BucketFor(m, key, r.at);
      if r.serial == serial {
        assert times[1..] == rest;
        FullIsFull(start, r.at);
      } else {
        assert times == rest;
        if key !in m && rest != [] {
          SerialTimesAfter(r.at, requests[1..], serial);
          FullIsFull(start, rest[0]);
          FullIsFull(r.at, rest[0]);
        }
      }
    }
  }

  /** From however many source addresses they come, the enrolments of one serial that pass the
      limiter in a window number at most 10 plus one for every six seconds. */
  lemma EnrolmentWindowBound(requests: seq<EnrolRequest>, serial: string, start: Time, t1: Time, t2: Time)
    requires MonotoneEnrols(start, requests) && t1 <= t2
    ensures PassesIn(map[], requests, serial, t1, t2) as real <= 10.0 + (t2 - t1) / 6.0
  {
    var times := SerialTimes(requests, serial);
    var b := Full(start);
    PassesAreSerialGrants(map[], requests, serial, start, t1, t2);
    SerialTimesAfter(start, requests, serial);
    WindowBound(b, times, t1, t2);
  }
}

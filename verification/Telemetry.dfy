/** The telemetry endpoint: the gates of a POST, in order. */
module Telemetry {
  import opened Wrappers
  import opened Text
  import opened RateLimit
  import opened RequestChecks
  import opened Database
  import opened RouterTokens

  datatype PushResult = Accepted(routerId: nat) | Refused(code: nat)

  function SourceKey(sourceIp: string): Key { Key("telemetry-ip", sourceIp) }

  function RouterKey(routerId: nat): Key { Key("telemetry-router", Decimal(routerId)) }

  /** The gates behind the token: router bucket, router row, status, then liveness. */
  function Admit(t: Tables, m: Buckets, now: Time, id: nat): (Tables, Buckets, PushResult) {
    var (m', granted) := Check(m, RouterKey(id), now);
    if !granted then (t, m', Refused(429))
    else if id >= |t.routers| then (t, m', Refused(401))
    else if t.routers[id].status in {Decommissioned, Quarantined} then (t, m', Refused(403))
    else (t.(routers := t.routers[id := t.routers[id].(lastSeenAt := Some(now))]), m', Accepted(id))
  }

  /** The gates behind the header: source bucket, token lookup. */
  function PushToken(hash: Hash, t: Tables, m: Buckets, now: Time, sourceIp: string, raw: string)
      : (Tables, Buckets, PushResult) {
    var (m', granted) := Check(m, SourceKey(sourceIp), now);
    if !granted then (t, m', Refused(429))
    else
      match IndexedLookup(hash, t.tokens, raw)
      case None => (t, m', Refused(401))
      case Some(i) => Admit(t, m', now, t.tokens[i].routerId)
  }

  function Push(hash: Hash, t: Tables, m: Buckets, now: Time, sourceIp: string, authorization: Option<string>)
      : (Tables, Buckets, PushResult) {
    match ExtractBearer(authorization)
    case Failure(_) => (t, m, Refused(401))
    case Success(raw) => PushToken(hash, t, m, now, sourceIp, raw)
  }

  // ----- the handler, in place ------------------------------------------------------

  method AdmitRouter(store: Store, limiter: RateLimiter, now: Time, id: nat) returns (result: PushResult)
    requires limiter.Valid()
    modifies store`routers, limiter, limiter.Objects()
    ensures limiter.Valid() && fresh(limiter.Objects() - old(limiter.Objects()))
    ensures (store.View(), limiter.View(), result) == Admit(old(store.View()), old(limiter.View()), now, id)
  {
    var granted := limiter.CheckRateLimit(RouterKey(id), now);
    if !granted {
      return Refused(429);
    }
    if id >= |store.routers| {
      return Refused(401);
    }
    if store.routers[id].status in {Decommissioned, Quarantined} {
      return Refused(403);
    }
    ghost var m := limiter.View();
    store.Touch(id, now);
    assert limiter.View() == m;
    return Accepted(id);
  }

  method PushWithToken(hash: Hash, store: Store, limiter: RateLimiter, now: Time, sourceIp: string, raw: string)
      returns (result: PushResult)
    requires limiter.Valid()
    modifies store`routers, limiter, limiter.Objects()
    ensures limiter.Valid() && fresh(limiter.Objects() - old(limiter.Objects()))
    ensures (store.View(), limiter.View(), result)
         == PushToken(hash, old(store.View()), old(limiter.View()), now, sourceIp, raw)
  {
    var granted := limiter.CheckRateLimit(SourceKey(sourceIp), now);
    if !granted {
      return Refused(429);
    }
    var found := FindValidRouterToken(hash, store.tokens, raw);
    if found.None? {
      return Refused(401);
    }
    result := AdmitRouter(store, limiter, now, store.tokens[found.value].routerId);
  }

  method PushTelemetry(hash: Hash, store: Store, limiter: RateLimiter, now: Time, sourceIp: string,
                       authorization: Option<string>) returns (result: PushResult)
    requires limiter.Valid()
    modifies store`routers, limiter, limiter.Objects()
    ensures limiter.Valid() && fresh(limiter.Objects() - old(limiter.Objects()))
    ensures (store.View(), limiter.View(), result)
         == Push(hash, old(store.View()), old(limiter.View()), now, sourceIp, authorization)
  {
    match ExtractBearer(authorization) {
      case Failure(_) =>
        return Refused(401);
      case Success(raw) =>
        result := PushWithToken(hash, store, limiter, now, sourceIp, raw);
    }
  }

  // ----- what a POST may change -----------------------------------------------------

  /** Only the liveness of the accepted router, or nothing at all. */
  predicate OnlyLiveness(t: Tables, t': Tables, now: Time, result: PushResult) {
    match result
    case Refused(_) => t' == t
    case Accepted(id) =>
      && id < |t.routers|
      && t' == Tables(t.routers[id := t.routers[id].(lastSeenAt := Some(now))], t.tokens)
  }

  lemma AdmitFrame(t: Tables, m: Buckets, now: Time, id: nat)
    ensures var (t', m', result) := Admit(t, m, now, id); OnlyLiveness(t, t', now, result)
  {
  }

  /** An accepted POST changes the liveness of its own router and nothing else in the tables; a
      refused one changes no table. */
  lemma PushFrame(hash: Hash, t: Tables, m: Buckets, now: Time, sourceIp: string, authorization: Option<string>)
    ensures var (t', m', result) := Push(hash, t, m, now, sourceIp, authorization);
            OnlyLiveness(t, t', now, result)
  {
    var bearer := ExtractBearer(authorization);
    if bearer.Success? {
      PushTokenFrame(hash, t, m, now, sourceIp, bearer.value);
    }
  }

  lemma PushTokenFrame(hash: Hash, t: Tables, m: Buckets, now: Time, sourceIp: string, raw: string)
    ensures var (t', m', result) := PushToken(hash, t, m, now, sourceIp, raw); OnlyLiveness(t, t', now, result)
  {
    var m' := Check(m, SourceKey(sourceIp), now).0;
    var found := IndexedLookup(hash, t.tokens, raw);
    if found.Some? {
      AdmitFrame(t, m', now, t.tokens[found.value].routerId);
    }
  }
}

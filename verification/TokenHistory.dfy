/** Which telemetry POST is accepted, told from the enrolment history alone. */
module TokenHistory {
  import opened Wrappers
  import opened RateLimit
  import opened RequestChecks
  import opened Database
  import opened ControlPlane
  import opened Invariant
  import opened AllocationHistory
  import opened RouterTokens
  import opened Telemetry

  /** Entry i is the last committed enrolment of its router so far. */
  predicate Latest(log: seq<Enrolment>, i: int) {
    0 <= i < |log| && !Superseded(log, i)
  }

  // ----- tokens ---------------------------------------------------------------------

  lemma TokenRowsAreMinted(hash: Hash, tokens: seq<TokenRow>, rows: seq<RouterRow>, log: seq<Enrolment>)
    requires TokensOk(hash, tokens, log) && LogOk(rows, log)
    ensures forall i :: 0 <= i < |tokens| ==> FromOneToken(hash, tokens[i])
  {
    forall i | 0 <= i < |tokens| ensures FromOneToken(hash, tokens[i]) {
      var raw := log[i].raw;
      assert tokens[i].tokenHash == hash(raw) && tokens[i].tokenPrefix == PrefixOf(raw);
    }
  }

  lemma HitIsLatest(hash: Hash, tokens: seq<TokenRow>, log: seq<Enrolment>, raw: string, i: nat)
    requires Injective(hash) && TokensOk(hash, tokens, log) && i < |log|
    ensures Hit(hash, tokens[i], raw) <==> Latest(log, i) && log[i].raw == raw
  {
  }

  lemma ScanByHistory(hash: Hash, tokens: seq<TokenRow>, log: seq<Enrolment>, raw: string)
    requires Injective(hash) && TokensOk(hash, tokens, log)
    ensures var found := FullScan(hash, tokens, raw);
            && (found.Some? ==> Latest(log, found.value) && log[found.value].raw == raw)
            && (found.None? ==> forall i :: Latest(log, i) ==> log[i].raw != raw)
  {
    forall i | 0 <= i < |log| ensures Hit(hash, tokens[i], raw) <==> Latest(log, i) && log[i].raw == raw {
      HitIsLatest(hash, tokens, log, raw, i);
    }
  }

  /** The lookup finds the token of a router's latest enrolment, and nothing else. */
  lemma LookupByHistory(hash: Hash, tokens: seq<TokenRow>, rows: seq<RouterRow>, log: seq<Enrolment>, raw: string)
    requires Injective(hash) && TokensOk(hash, tokens, log) && LogOk(rows, log)
    ensures var found := IndexedLookup(hash, tokens, raw);
            && (found.Some? ==> Latest(log, found.value) && log[found.value].raw == raw)
            && (found.None? ==> forall i :: Latest(log, i) ==> log[i].raw != raw)
  {
    TokenRowsAreMinted(hash, tokens, rows, log);
    IndexAgreesWithScan(hash, tokens, raw);
    ScanByHistory(hash, tokens, log, raw);
  }

  predicate ActiveFor(token: TokenRow, id: nat) {
    token.routerId == id && token.revokedAt.None?
  }

  lemma SupersededEarlier(log: seq<Enrolment>, n: nat, i: nat)
    requires i < n == |log| - 1 && log[n].routerId != log[i].routerId
    ensures Superseded(log, i) ==> Superseded(log[..n], i)
  {
    if Superseded(log, i) {
      var j :| i < j < |log| && log[j].routerId == log[i].routerId;
      assert log[..n][j].routerId == log[..n][i].routerId;
    }
  }

  lemma {:induction false} LatestEntry(log: seq<Enrolment>, id: nat) returns (i: nat)
    requires HasEntry(log, id)
    ensures Latest(log, i) && log[i].routerId == id
    decreases |log|
  {
    var n := |log| - 1;
    if log[n].routerId == id {
      i := n;
    } else {
      var h :| 0 <= h < |log| && log[h].routerId == id;
      assert log[..n][h].routerId == id;
      i := LatestEntry(log[..n], id);
      SupersededEarlier(log, n, i);
    }
  }

  lemma LatestIsUnique(log: seq<Enrolment>, i: nat, j: nat)
    requires Latest(log, i) && Latest(log, j) && log[i].routerId == log[j].routerId
    ensures i == j
  {
  }

  /** In every reachable state every router has exactly one unrevoked token: the one minted by the
      latest enrolment that committed, whether or not its sync went through. */
  lemma ExactlyOneActiveToken(c: Settings, file: Option<string>, s: State, id: nat) returns (i: nat)
    requires Deployed(c) && Reachable(c, file, s) && id < |s.tables.routers|
    ensures i < |s.tables.tokens| == |s.log| && Latest(s.log, i) && s.log[i].routerId == id
    ensures s.tables.tokens[i] == MintedRow(c.hash, id, s.log[i].raw)
    ensures forall j :: 0 <= j < |s.tables.tokens| && ActiveFor(s.tables.tokens[j], id) ==> j == i
  {
    ReachableInv(c, file, s);
    assert HasEntry(s.log, id);
    i := LatestEntry(s.log, id);
    forall j | 0 <= j < |s.tables.tokens| && ActiveFor(s.tables.tokens[j], id) ensures j == i {
      LatestIsUnique(s.log, i, j);
    }
  }

  // ----- acceptance -----------------------------------------------------------------

  /** The text is the token of the latest committed enrolment of the router. */
  ghost predicate Holds(log: seq<Enrolment>, raw: string, id: nat) {
    exists i :: Latest(log, i) && log[i].routerId == id && log[i].raw == raw
  }

  predicate BothBucketsGrant(m: Buckets, now: Time, sourceIp: string, id: nat) {
    var (m', granted) := Check(m, SourceKey(sourceIp), now);
    granted && Check(m', RouterKey(id), now).1
  }

  lemma LookupHolds(hash: Hash, t: Tables, log: seq<Enrolment>, raw: string, id: nat)
    requires Injective(hash) && TokensOk(hash, t.tokens, log) && LogOk(t.routers, log)
    ensures Holds(log, raw, id) <==>
              var found := IndexedLookup(hash, t.tokens, raw);
              found.Some? && t.tokens[found.value].routerId == id
  {
    LookupByHistory(hash, t.tokens, t.routers, log, raw);
    var found := IndexedLookup(hash, t.tokens, raw);
    if found.Some? {
      assert forall i :: Latest(log, i) && log[i].raw == raw ==> i == found.value;
    }
  }

  lemma TokenAccepted(hash: Hash, t: Tables, log: seq<Enrolment>, m: Buckets, now: Time, sourceIp: string,
                      raw: string, id: nat)
    requires Injective(hash) && TokensOk(hash, t.tokens, log) && LogOk(t.routers, log)
    ensures PushToken(hash, t, m, now, sourceIp, raw).2 == Accepted(id) <==>
              && Holds(log, raw, id)
              && id < |t.routers| && t.routers[id].status !in {Decommissioned, Quarantined}
              && BothBucketsGrant(m, now, sourceIp, id)
  {
    LookupHolds(hash, t, log, raw, id);
  }

  /** Acceptance by history: in every reachable state a POST is accepted for a router exactly when
      its bearer is the token minted by that router's latest committed enrolment, the router is
      neither decommissioned nor quarantined, and both buckets grant. */
  lemma AcceptedByHistory(c: Settings, file: Option<string>, s: State, now: Time, sourceIp: string,
                          authorization: Option<string>, id: nat)
    requires Deployed(c) && Reachable(c, file, s)
    ensures var bearer := ExtractBearer(authorization);
            Push(c.hash, s.tables, s.buckets, now, sourceIp, authorization).2 == Accepted(id) <==>
              && bearer.Success? && Holds(s.log, bearer.value, id)
              && id < |s.tables.routers| && s.tables.routers[id].status !in {Decommissioned, Quarantined}
              && BothBucketsGrant(s.buckets, now, sourceIp, id)
  {
    ReachableInv(c, file, s);
    var bearer := ExtractBearer(authorization);
    if bearer.Success? {
      TokenAccepted(c.hash, s.tables, s.log, s.buckets, now, sourceIp, bearer.value, id);
    }
  }

  predicate SourceGrants(m: Buckets, now: Time, sourceIp: string) {
    Check(m, SourceKey(sourceIp), now).1
  }

  predicate Barred(t: Tables, id: nat) {
    id < |t.routers| && t.routers[id].status in {Decommissioned, Quarantined}
  }

  lemma TokenRefused(hash: Hash, t: Tables, log: seq<Enrolment>, m: Buckets, now: Time, sourceIp: string, raw: string)
    requires Injective(hash) && TokensOk(hash, t.tokens, log) && LogOk(t.routers, log)
    ensures var answer := PushToken(hash, t, m, now, sourceIp, raw).2;
            && (answer == Refused(429) <==>
                  || !SourceGrants(m, now, sourceIp)
                  || exists id :: Holds(log, raw, id) && !BothBucketsGrant(m, now, sourceIp, id))
            && (answer == Refused(401) <==> SourceGrants(m, now, sourceIp) && forall id :: !Holds(log, raw, id))
            && (answer == Refused(403) <==>
                  exists id :: Holds(log, raw, id) && BothBucketsGrant(m, now, sourceIp, id) && Barred(t, id))
  {
    hide IndexedLookup, Holds;
    var found := IndexedLookup(hash, t.tokens, raw);
    LookupInLog(hash, t, log, raw);
    forall id ensures Holds(log, raw, id) <==> found.Some? && t.tokens[found.value].routerId == id {
      LookupHolds(hash, t, log, raw, id);
    }
    if found.Some? {
      assert Holds(log, raw, t.tokens[found.value].routerId);
    }
  }

  /** Why a POST is refused, by history: 429 when the source, or the router behind the token, is
      over its limit; 401 when no router's latest enrolment minted the token; 403 when the router
      is decommissioned or quarantined. */
  lemma RefusedByHistory(c: Settings, file: Option<string>, s: State, now: Time, sourceIp: string,
                         authorization: Option<string>)
    requires Deployed(c) && Reachable(c, file, s)
    ensures var bearer := ExtractBearer(authorization);
            var answer := Push(c.hash, s.tables, s.buckets, now, sourceIp, authorization).2;
            if bearer.Failure? then answer == Refused(401)
            else
              && (answer == Refused(429) <==>
                    || !SourceGrants(s.buckets, now, sourceIp)
                    || exists id :: Holds(s.log, bearer.value, id) && !BothBucketsGrant(s.buckets, now, sourceIp, id))
              && (answer == Refused(401) <==>
                    SourceGrants(s.buckets, now, sourceIp) && forall id :: !Holds(s.log, bearer.value, id))
              && (answer == Refused(403) <==>
                    exists id :: Holds(s.log, bearer.value, id) && BothBucketsGrant(s.buckets, now, sourceIp, id)
                                 && Barred(s.tables, id))
  {
    hide ExtractBearer, PushToken, Holds, BothBucketsGrant, SourceGrants, Barred;
    ReachableInv(c, file, s);
    var bearer := ExtractBearer(authorization);
    if bearer.Success? {
      TokenRefused(c.hash, s.tables, s.log, s.buckets, now, sourceIp, bearer.value);
    }
  }

  /** An enrolment that has just committed decides alone which token its router is known by. */
  lemma NewestTokenHolds(log: seq<Enrolment>, e: Enrolment, raw: string)
    ensures Holds(log + [e], raw, e.routerId) <==> raw == e.raw
  {
    var log' := log + [e];
    assert Latest(log', |log|);
    forall i | Latest(log', i) && log'[i].routerId == e.routerId ensures i == |log| {
      LatestIsUnique(log', i, |log|);
    }
  }
}

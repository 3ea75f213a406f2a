/** Enrolments that overlap: which first enrolment wins, what becomes of the others, and what two
    re-enrolments of one router leave behind. */
module EnrolmentRaces {
  import opened Wrappers
  import opened Inet
  import opened Overlay
  import opened RateLimit
  import opened Database
  import opened ControlPlane
  import opened Invariant
  import opened AllocationHistory
  import opened AutoEnroll
  import opened FileHistory
  import opened RequestHistory

  // ----- who wins -------------------------------------------------------------------

  function RouterCount(c: Settings, file: Option<string>, run: seq<Step>, k: nat): nat
    requires IsRun(c, file, run) && k <= |run|
  {
    |StateAt(c, file, run, k).tables.routers|
  }

  /** Step i commits a first enrolment. */
  predicate CommitsFirst(c: Settings, file: Option<string>, run: seq<Step>, i: nat)
    requires IsRun(c, file, run) && i < |run|
  {
    RouterCount(c, file, run, i) < RouterCount(c, file, run, i + 1)
  }

  lemma CountGrows(c: Settings, file: Option<string>, run: seq<Step>, j: nat, k: nat)
    requires Deployed(c) && IsRun(c, file, run) && j <= k <= |run|
    ensures RouterCount(c, file, run, j) <= RouterCount(c, file, run, k)
  {
    hide Exec, Apply;
    RoutersPersist(c, file, run, j, k);
  }

  /** No router was added over a stretch exactly when no step of it committed a first enrolment. */
  lemma CountStaysExactly(c: Settings, file: Option<string>, run: seq<Step>, j: nat, k: nat)
    requires Deployed(c) && IsRun(c, file, run) && j <= k <= |run|
    ensures RouterCount(c, file, run, j) == RouterCount(c, file, run, k) <==>
              forall i :: j <= i < k ==> !CommitsFirst(c, file, run, i)
  {
    hide Exec, Apply, RouterCount;
    if forall i :: j <= i < k ==> !CommitsFirst(c, file, run, i) {
      var counts := seq(|run| + 1, i requires 0 <= i <= |run| => RouterCount(c, file, run, i));
      forall i | j <= i < k ensures counts[i] == counts[i + 1] {
        assert !CommitsFirst(c, file, run, i);
        CountGrows(c, file, run, i, i + 1);
      }
      Unchanging(counts, j, k);
    }
    if i :| j <= i < k && CommitsFirst(c, file, run, i) {
      CountGrows(c, file, run, j, i);
      CountGrows(c, file, run, i + 1, k);
    }
  }

  lemma PoolIsInjective(c: Settings, i: nat, j: nat)
    requires i < |PoolOf(c)| && j < |PoolOf(c)| && PoolOf(c)[i] == PoolOf(c)[j]
    ensures i == j
  {
  }

  lemma AllocatedAt(c: Settings, file: Option<string>, run: seq<Step>, j: nat, k: nat, id: nat, raw: string, now: Time)
    returns (p: Payload, ip: Address)
    requires Deployed(c) && IsRun(c, file, run) && j < k < |run|
    requires run[j] == AllocateIp(id) && run[k] == Commit(id, raw, now)
    ensures RouterCount(c, file, run, j) < |PoolOf(c)| && ip == PoolOf(c)[RouterCount(c, file, run, j)]
    ensures Stands(c, file, run, k, id, Allocated(p, ip))
  {
    hide Exec, Apply, Advance, Deployed;
    var s := StateAt(c, file, run, j);
    NextState(c, file, run, j);
    NextState(c, file, run, k);
    assert Reachable(c, file, s) by {
      StateIsReachable(c, file, run, j);
    }
    AllocateOutcome(c, file, s, id);
    var phase := Advance(c, s, s.requests[id]);
    StandsNext(c, file, run, j, id, phase);
    PhaseFrom(c, file, run, id, j + 1, k);
    p, ip := phase.payload, phase.ip;
  }

  lemma StateIsReachable(c: Settings, file: Option<string>, run: seq<Step>, k: nat)
    requires IsRun(c, file, run) && k <= |run|
    ensures Reachable(c, file, StateAt(c, file, run, k))
  {
    hide Apply;
    PrefixIsRun(c, file, run, k);
    assert Exec(c, file, run[..k]) == Some(StateAt(c, file, run, k));
  }

  lemma AllocateOutcome(c: Settings, file: Option<string>, s: State, id: nat)
    requires Deployed(c) && Reachable(c, file, s) && Enabled(s, AllocateIp(id))
    ensures var n, phase := |s.tables.routers|, Advance(c, s, s.requests[id]);
            if n < |PoolOf(c)|
            then phase.Allocated? && phase.payload == s.requests[id].payload && phase.ip == PoolOf(c)[n]
            else phase == Done(Rejected(500))
  {
    ReachableRouters(c, file, s);
    AllocatorAnswers(c, s.tables.routers);
    if |s.tables.routers| < |PoolOf(c)| {
      PoolIsAddresses(c, |s.tables.routers|);
    }
  }

  /** A first enrolment that read its address at one step and commits at a later one succeeds exactly
      when no other first enrolment has committed in between, the columns accept its payload, and
      the payload collides with no row. */
  lemma FirstEnrolmentWinsExactly(c: Settings, file: Option<string>, run: seq<Step>, j: nat, k: nat, id: nat,
                                  raw: string, now: Time)
    requires Deployed(c) && IsRun(c, file, run) && j < k < |run|
    requires run[j] == AllocateIp(id) && run[k] == Commit(id, raw, now)
    ensures var s, s' := StateAt(c, file, run, k), StateAt(c, file, run, k + 1);
            && id in s.requests && id in s'.requests && s.requests[id].Allocated?
            && var p := s.requests[id].payload;
            s'.requests[id].Syncing? <==>
              && (forall i :: j <= i < k ==> !CommitsFirst(c, file, run, i))
              && InsertAccepted(c.columns, p)
              && forall i :: 0 <= i < |s.tables.routers| ==>
                   SharesNothing(s.tables.routers[i], p, c.columns.mac(p.mac).value)
  {
    hide Exec, Apply, CommitsFirst, SharesNothing, InsertAccepted, Deployed;
    var p, ip := AllocatedAt(c, file, run, j, k, id, raw, now);
    var s := StateAt(c, file, run, k);
    NextState(c, file, run, k);
    StateIsReachable(c, file, run, k);
    FirstEnrolmentCommitsExactly(c, file, s, id, raw, now);
    CountStaysExactly(c, file, run, j, k);
    PhaseNext(c, file, run, id, k);
    CountGrows(c, file, run, j, k);
    if |s.tables.routers| < |PoolOf(c)| && ip == PoolOf(c)[|s.tables.routers|] {
      PoolIsInjective(c, RouterCount(c, file, run, j), |s.tables.routers|);
    }
  }

  // ----- what becomes of the loser --------------------------------------------------

  /** Two payloads that could both be enrolled. */
  predicate Compatible(c: Settings, rows: seq<RouterRow>, p: Payload, q: Payload) {
    && InsertAccepted(c.columns, p) && InsertAccepted(c.columns, q)
    && (forall i :: 0 <= i < |rows| ==>
          && SharesNothing(rows[i], p, c.columns.mac(p.mac).value)
          && SharesNothing(rows[i], q, c.columns.mac(q.mac).value))
    && p.identity != q.identity && p.serial != q.serial && p.publicKey != q.publicKey
    && c.columns.mac(p.mac) != c.columns.mac(q.mac)
  }

  lemma Allocates(c: Settings, file: Option<string>, run: seq<Step>, s: State, id: nat) returns (s': State)
    requires Deployed(c) && Exec(c, file, run) == Some(s) && Enabled(s, AllocateIp(id))
    requires |s.tables.routers| < |PoolOf(c)|
    ensures Exec(c, file, run + [AllocateIp(id)]) == Some(s')
    ensures PoolOf(c)[|s.tables.routers|] < 0x1_0000_0000
    ensures OnlyMoved(s, s', id, Allocated(s.requests[id].payload, PoolOf(c)[|s.tables.routers|]))
  {
    hide Exec, Apply, Advance, Deployed;
    assert Reachable(c, file, s);
    AllocateOutcome(c, file, s, id);
    s' := Advances(c, file, run, s, AllocateIp(id));
  }

  lemma CommitsNew(c: Settings, file: Option<string>, run: seq<Step>, s: State, id: nat, raw: string, at: Time)
    returns (s': State)
    requires Deployed(c) && Exec(c, file, run) == Some(s)
    requires Enabled(s, Commit(id, raw, at)) && s.requests[id].Allocated?
    ensures Exec(c, file, run + [Commit(id, raw, at)]) == Some(s')
    ensures var rows := s.tables.routers;
            var (p, ip) := (s.requests[id].payload, s.requests[id].ip);
            && id in s'.requests && s'.requests == s.requests[id := s'.requests[id]]
            && if Insertable(c, rows, p, ip)
               then && s'.requests[id].Syncing?
                    && s'.tables.routers == rows + [NewRow(p, c.columns.mac(p.mac).value, ip, at)]
                    && s'.log == s.log + [Enrolment(|rows|, p.serial, raw)]
               else s' == RolledBack(s, id)
  {
    OneMore(c, file, run, s, Commit(id, raw, at));
    s' := Apply(c, s, Commit(id, raw, at));
    hide Exec, Insertable;
    assert Reachable(c, file, s);
    FirstEnrolmentCommitsExactly(c, file, s, id, raw, at);
  }

  lemma LoserStillFits(c: Settings, rows: seq<RouterRow>, p: Payload, q: Payload, ip: Address, at: Time)
    requires Compatible(c, rows, p, q) && |rows| + 1 < |PoolOf(c)| && ip == PoolOf(c)[|rows|]
    requires PoolOf(c)[|rows| + 1] < 0x1_0000_0000
    ensures var rows' := rows + [NewRow(p, c.columns.mac(p.mac).value, ip, at)];
            Insertable(c, rows', q, PoolOf(c)[|rows| + 1]) && !Insertable(c, rows', q, ip)
  {
  }

  /** Nothing retries the loser of a race. From every reachable state with two serials that are both
      new, payloads that could both be enrolled, and two addresses left, there is a run in which the
      second is rejected although there is an address for it: its payload can be inserted, at the
      next one. */
  lemma LoserIsRejected(c: Settings, file: Option<string>, run: seq<Step>, s: State, a: nat, b: nat,
                        rawA: string, rawB: string, at: Time) returns (later: seq<Step>, s': State)
    requires Deployed(c) && Exec(c, file, run) == Some(s) && |s.tables.routers| + 1 < |PoolOf(c)|
    requires a != b && Enabled(s, AllocateIp(a)) && Enabled(s, AllocateIp(b))
    requires Compatible(c, s.tables.routers, s.requests[a].payload, s.requests[b].payload)
    requires |rawA| >= PREFIX_LEN && !Minted(s.log, rawA) && |rawB| >= PREFIX_LEN && !Minted(s.log, rawB)
    requires rawA != rawB
    ensures Exec(c, file, later) == Some(s')
    ensures a in s'.requests && s'.requests[a].Syncing? && b in s'.requests && s'.requests[b] == Done(Rejected(500))
    ensures var n := |s'.tables.routers|;
            && n < |PoolOf(c)| && PoolOf(c)[n] < 0x1_0000_0000
            && Insertable(c, s'.tables.routers, s.requests[b].payload, PoolOf(c)[n])
  {
    hide Exec, Apply, Insertable, Compatible, Deployed;
    var rows, p, q := s.tables.routers, s.requests[a].payload, s.requests[b].payload;
    var s1 := Allocates(c, file, run, s, a);
    later := run + [AllocateIp(a)];
    var s2 := Allocates(c, file, later, s1, b);
    later := later + [AllocateIp(b)];
    var ip := PoolOf(c)[|rows|];
    WinnerFits(c, rows, p, q, ip);
    var s3 := CommitsNew(c, file, later, s2, a, rawA, at);
    later := later + [Commit(a, rawA, at)];
    MintedAppend(s.log, Enrolment(|rows|, p.serial, rawA), rawB);
    PoolIsAddresses(c, |rows| + 1);
    LoserStillFits(c, rows, p, q, ip, at);
    s' := CommitsNew(c, file, later, s3, b, rawB, at);
    later := later + [Commit(b, rawB, at)];
  }

  lemma WinnerFits(c: Settings, rows: seq<RouterRow>, p: Payload, q: Payload, ip: Address)
    requires Compatible(c, rows, p, q) && |rows| < |PoolOf(c)| && ip == PoolOf(c)[|rows|]
    ensures Insertable(c, rows, p, ip)
  {
  }

  lemma MintedAppend(log: seq<Enrolment>, e: Enrolment, raw: string)
    requires !Minted(log, raw) && e.raw != raw
    ensures !Minted(log + [e], raw)
  {
  }

  // ----- two re-enrolments of one router --------------------------------------------

  lemma CommitsUpdate(c: Settings, file: Option<string>, run: seq<Step>, s: State, id: nat, raw: string, at: Time)
    returns (s': State)
    requires Deployed(c) && Exec(c, file, run) == Some(s)
    requires Enabled(s, Commit(id, raw, at)) && s.requests[id].Found?
    ensures Exec(c, file, run + [Commit(id, raw, at)]) == Some(s')
    ensures var rows := s.tables.routers;
            var Found(p, r, loaded) := s.requests[id];
            && id in s'.requests && s'.requests == s.requests[id := s'.requests[id]]
            && r < |rows|
            && (Updatable(c, rows, r, loaded, p) ==>
                  && s'.tables.routers == rows[r := UpdatedRow(c.columns, rows[r], loaded, p, at)]
                  && s'.log == s.log + [Enrolment(r, p.serial, raw)])
  {
    OneMore(c, file, run, s, Commit(id, raw, at));
    s' := Apply(c, s, Commit(id, raw, at));
    hide Exec;
    assert Reachable(c, file, s);
    ReenrolmentCommitsExactly(c, file, s, id, raw, at);
  }

  lemma UpdatableBeside(c: Settings, rows: seq<RouterRow>, r: nat, loaded: RouterRow, p: Payload, row: RouterRow)
    requires r < |rows| && Updatable(c, rows, r, loaded, p)
    ensures Updatable(c, rows[r := row], r, loaded, p)
  {
  }

  /** A re-enrolment does not write what agrees with the row it loaded. From every reachable state
      with two re-enrolments of one router that loaded the same row, the second of which keeps the
      identity that the first changes, there is a run in which the second commits last, its token
      is the router's, and the row bears the identity of the first. */
  lemma LaterReenrolmentIsMixed(c: Settings, file: Option<string>, run: seq<Step>, s: State, a: nat, b: nat, r: nat,
                                rawA: string, rawB: string, at: Time) returns (later: seq<Step>, s': State)
    requires Deployed(c) && Exec(c, file, run) == Some(s) && a != b
    requires Enabled(s, Commit(a, rawA, at)) && s.requests[a].Found? && s.requests[a].routerId == r
    requires Enabled(s, Commit(b, rawB, at)) && s.requests[b].Found? && s.requests[b].routerId == r
    requires rawA != rawB && r < |s.tables.routers|
    requires Updatable(c, s.tables.routers, r, s.requests[a].loaded, s.requests[a].payload)
    requires Updatable(c, s.tables.routers, r, s.requests[b].loaded, s.requests[b].payload)
    requires s.requests[a].payload.identity != s.requests[a].loaded.identity
    requires s.requests[b].payload.identity == s.requests[b].loaded.identity == s.requests[a].loaded.identity
    ensures Exec(c, file, later) == Some(s') && r < |s'.tables.routers|
    ensures s'.log == s.log + [Enrolment(r, s.requests[a].payload.serial, rawA),
                               Enrolment(r, s.requests[b].payload.serial, rawB)]
    ensures s'.tables.routers[r].identity == s.requests[a].payload.identity != s.requests[b].payload.identity
  {
    hide Exec, Apply, Updatable, Deployed;
    var Found(p, _, loaded) := s.requests[a];
    var s1 := CommitsUpdate(c, file, run, s, a, rawA, at);
    later := run + [Commit(a, rawA, at)];
    MintedAppend(s.log, Enrolment(r, p.serial, rawA), rawB);
    UpdatableBeside(c, s.tables.routers, r, s.requests[b].loaded, s.requests[b].payload, s1.tables.routers[r]);
    s' := CommitsUpdate(c, file, later, s1, b, rawB, at);
    later := later + [Commit(b, rawB, at)];
  }
}

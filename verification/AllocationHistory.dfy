/** What holds of router rows and overlay addresses over whole runs, under every interleaving. */
module AllocationHistory {
  import opened Wrappers
  import opened Inet
  import opened Overlay
  import opened RateLimit
  import opened Database
  import opened RequestChecks
  import opened ControlPlane
  import opened Invariant

  // ----- one step -------------------------------------------------------------------

  lemma SameIdentitiesExtend(rows: seq<RouterRow>, later: seq<RouterRow>)
    requires SameIdentities(rows, later)
    ensures Extends(rows, later)
  {
  }

  lemma CommitExtends(c: Settings, s: State, phase: Phase, raw: string, now: Time)
    requires phase.Allocated? || phase.Found?
    requires phase.Found? && phase.routerId < |s.tables.routers| ==>
               s.tables.routers[phase.routerId].serial == phase.payload.serial
    ensures var r := CommitPhase(c, s, phase, raw, now);
            Extends(s.tables.routers, r.0.routers) && s.log <= r.1
  {
  }

  lemma TouchExtends(c: Settings, s: State, id: nat, now: Time)
    requires Enabled(s, Touch(id, now))
    ensures var s' := Apply(c, s, Touch(id, now));
            SameIdentities(s.tables.routers, s'.tables.routers) && s'.log == s.log
  {
    TouchKeepsIdentities(s.tables, s.requests[id].beat.routerId, now);
  }

  /** No step removes a router, changes its serial or its address, or rewrites the history. */
  lemma StepExtends(c: Settings, file0: Option<string>, s: State, step: Step)
    requires Inv(c, file0, s) && Enabled(s, step)
    ensures Extends(s.tables.routers, Apply(c, s, step).tables.routers) && s.log <= Apply(c, s, step).log
  {
    hide Inv, Gates, Advance, Arrive, Limit, Touched, Minted;
    match step
    case Commit(id, raw, now) =>
      InvPhase(c, file0, s, id);
      CommitExtends(c, s, s.requests[id], raw, now);
    case Touch(id, now) =>
      TouchExtends(c, s, id, now);
      SameIdentitiesExtend(s.tables.routers, Apply(c, s, step).tables.routers);
    case _ =>
  }

  // ----- whole runs -----------------------------------------------------------------

  /** A state that some run, under some interleaving, ends in. */
  ghost predicate Reachable(c: Settings, file: Option<string>, s: State) {
    exists run :: Exec(c, file, run) == Some(s)
  }

  lemma ReachableInv(c: Settings, file: Option<string>, s: State)
    requires Deployed(c) && Reachable(c, file, s)
    ensures Inv(c, file, s)
  {
    hide Apply, Inv;
    var run :| Exec(c, file, run) == Some(s);
    RunInv(c, file, run);
  }

  lemma ReachableRouters(c: Settings, file: Option<string>, s: State)
    requires Deployed(c) && Reachable(c, file, s)
    ensures RoutersOk(c, s.tables.routers)
  {
    ReachableInv(c, file, s);
  }

  lemma RunRouters(c: Settings, file: Option<string>, run: seq<Step>, s: State)
    requires Deployed(c) && Exec(c, file, run) == Some(s)
    ensures RoutersOk(c, s.tables.routers)
  {
    hide Apply;
    RunInv(c, file, run);
  }

  lemma ReachablePhase(c: Settings, file: Option<string>, s: State, id: nat)
    requires Deployed(c) && Reachable(c, file, s) && id in s.requests
    ensures PhaseOk(c, file, s.tables.routers, s.log, s.requests[id])
  {
    ReachableInv(c, file, s);
  }

  lemma StateInv(c: Settings, file: Option<string>, run: seq<Step>, k: nat)
    requires Deployed(c) && IsRun(c, file, run) && k <= |run|
    ensures Inv(c, file, StateAt(c, file, run, k))
  {
    PrefixIsRun(c, file, run, k);
    RunInv(c, file, run[..k]);
  }

  lemma NextExtends(c: Settings, file: Option<string>, run: seq<Step>, k: nat)
    requires Deployed(c) && IsRun(c, file, run) && k < |run|
    ensures Extends(StateAt(c, file, run, k).tables.routers, StateAt(c, file, run, k + 1).tables.routers)
    ensures StateAt(c, file, run, k).log <= StateAt(c, file, run, k + 1).log
  {
    StateInv(c, file, run, k);
    NextState(c, file, run, k);
    StepExtends(c, file, StateAt(c, file, run, k), run[k]);
  }

  lemma ExtendsFurther(a: seq<RouterRow>, b: seq<RouterRow>, d: seq<RouterRow>,
                       x: seq<Enrolment>, y: seq<Enrolment>, z: seq<Enrolment>)
    requires Extends(a, b) && Extends(b, d) && x <= y && y <= z
    ensures Extends(a, d) && x <= z
  {
  }

  /** A router, once enrolled, keeps its row, serial and address for the rest of the run, through
      every re-enrolment and status change; the history only grows. */
  lemma {:induction false} RoutersPersist(c: Settings, file: Option<string>, run: seq<Step>, j: nat, k: nat)
    requires Deployed(c) && IsRun(c, file, run) && j <= k <= |run|
    ensures Extends(StateAt(c, file, run, j).tables.routers, StateAt(c, file, run, k).tables.routers)
    ensures StateAt(c, file, run, j).log <= StateAt(c, file, run, k).log
    decreases k
  {
    hide Apply, Exec;
    if j < k {
      RoutersPersist(c, file, run, j, k - 1);
      NextExtends(c, file, run, k - 1);
      var first, mid, last := StateAt(c, file, run, j), StateAt(c, file, run, k - 1), StateAt(c, file, run, k);
      ExtendsFurther(first.tables.routers, mid.tables.routers, last.tables.routers, first.log, mid.log, last.log);
    }
  }

  function Serials(log: seq<Enrolment>): set<string> {
    set i | 0 <= i < |log| :: log[i].serial
  }

  function RowSerials(rows: seq<RouterRow>): (r: set<string>)
    ensures forall x :: x in r <==> exists i :: 0 <= i < |rows| && rows[i].serial == x
  {
    set i | 0 <= i < |rows| :: rows[i].serial
  }

  lemma LastSerial(rows: seq<RouterRow>)
    requires rows != []
    ensures RowSerials(rows) == RowSerials(rows[..|rows| - 1]) + {rows[|rows| - 1].serial}
  {
    var init := rows[..|rows| - 1];
    forall x ensures x in RowSerials(rows) <==> x in RowSerials(init) || x == rows[|rows| - 1].serial {
      if x in RowSerials(init) {
        var i :| 0 <= i < |init| && init[i].serial == x;
        assert rows[i].serial == x;
      }
      if x in RowSerials(rows) {
        var i :| 0 <= i < |rows| && rows[i].serial == x;
        assert i < |init| ==> init[i].serial == x;
      }
    }
  }

  lemma {:induction false} SerialsCount(rows: seq<RouterRow>)
    requires UniqueRows(rows)
    ensures |RowSerials(rows)| == |rows|
  {
    if rows != [] {
      var init, last := rows[..|rows| - 1], rows[|rows| - 1];
      SerialsCount(init);
      LastSerial(rows);
      forall i | 0 <= i < |init| ensures init[i].serial != last.serial {
        assert !Clash(rows[i], rows[|rows| - 1]);
      }
    }
  }

  lemma LoggedSerials(rows: seq<RouterRow>, log: seq<Enrolment>)
    requires UniqueRows(rows) && LogOk(rows, log)
    ensures |Serials(log)| == |rows|
  {
    SerialsCount(rows);
    forall x | x in RowSerials(rows) ensures x in Serials(log) {
      var id :| 0 <= id < |rows| && rows[id].serial == x;
      assert HasEntry(log, id);
      var i :| 0 <= i < |log| && log[i].routerId == id;
      assert log[i].serial == x;
    }
    assert Serials(log) == RowSerials(rows);
  }

  /** Gap-free allocation. After every run, with n serials committed so far, the addresses in use
      are exactly the first n of the pool, and they are pairwise distinct. */
  lemma GapFree(c: Settings, file: Option<string>, run: seq<Step>)
    requires Deployed(c) && IsRun(c, file, run)
    ensures var s := Exec(c, file, run).value;
            var rows := s.tables.routers;
            var n := |Serials(s.log)|;
            && |rows| == n <= |PoolOf(c)|
            && UsedIps(rows) == Elements(PoolOf(c)[..n])
            && (forall i :: 0 <= i < n ==> rows[i].overlayIp == Some(PoolOf(c)[i]))
            && (forall i, j :: 0 <= i < j < n ==> rows[i].overlayIp != rows[j].overlayIp)
  {
    RunInv(c, file, run);
    var s := Exec(c, file, run).value;
    var rows := s.tables.routers;
    LoggedSerials(rows, s.log);
    UsedIsPoolPrefix(c, rows);
    forall i | 0 <= i < |rows| ensures rows[i].overlayIp == Some(PoolOf(c)[i]) {
      assert HasIp(rows[i], PoolOf(c)[i]);
    }
  }

  /** A lookup finds the one row of its serial, and loads it, or finds that there is none. */
  lemma LookupExactly(c: Settings, file: Option<string>, s: State, id: nat)
    requires Deployed(c) && Reachable(c, file, s) && Enabled(s, Lookup(id))
    ensures var s' := Apply(c, s, Lookup(id));
            var (p, rows) := (s.requests[id].payload, s.tables.routers);
            && s'.tables == s.tables && id in s'.requests
            && (!c.columns.text(p.serial) ==> s'.requests[id] == Done(Rejected(500)))
            && (c.columns.text(p.serial) && (forall i :: 0 <= i < |rows| ==> rows[i].serial != p.serial) ==>
                  s'.requests[id] == NotFound(p))
            && forall r :: 0 <= r < |rows| && c.columns.text(p.serial) && rows[r].serial == p.serial ==>
                 s'.requests[id] == Found(p, r, rows[r])
  {
    ReachableRouters(c, file, s);
    var p, rows := s.requests[id].payload, s.tables.routers;
    forall i, j | 0 <= i < j < |rows| ensures rows[i].serial != rows[j].serial {
      assert !Clash(rows[i], rows[j]);
    }
  }

  // ----- when allocation fails, when a commit fails ---------------------------------

  lemma PoolIsAddresses(c: Settings, i: nat)
    requires Deployed(c) && i < |PoolOf(c)|
    ensures PoolOf(c)[i] < 0x1_0000_0000
  {
    assert PoolOf(c)[i] in PoolOf(c);
  }

  /** In every reachable state allocation raises exactly when all hosts but the server's are
      taken, and otherwise answers the next address of the pool. */
  lemma AllocationFailsExactly(c: Settings, file: Option<string>, s: State, id: nat)
    requires Deployed(c) && Reachable(c, file, s) && Enabled(s, AllocateIp(id))
    ensures var n := |s.tables.routers|;
            var phase := Apply(c, s, AllocateIp(id)).requests[id];
            && (phase == Done(Rejected(500)) <==> n == |PoolOf(c)|)
            && (n < |PoolOf(c)| ==>
                  phase.Allocated? && phase.payload == s.requests[id].payload && phase.ip == PoolOf(c)[n])
  {
    ReachableRouters(c, file, s);
    AllocatorAnswers(c, s.tables.routers);
    if |s.tables.routers| < |PoolOf(c)| {
      PoolIsAddresses(c, |s.tables.routers|);
    }
  }

  /** The payload takes over nothing that another row holds; MACs are compared as the column reads
      them. */
  predicate SharesNothing(row: RouterRow, p: Payload, mac: string) {
    row.identity != p.identity && row.serial != p.serial && row.mac != mac && row.publicKey != Some(p.publicKey)
  }

  /** The columns accept the payload, it collides with no row, and the address is still the next
      one of the pool. */
  predicate Insertable(c: Settings, rows: seq<RouterRow>, p: Payload, ip: Address) {
    && InsertAccepted(c.columns, p)
    && |rows| < |PoolOf(c)| && ip == PoolOf(c)[|rows|]
    && forall i :: 0 <= i < |rows| ==> SharesNothing(rows[i], p, c.columns.mac(p.mac).value)
  }

  lemma InsertOutcome(c: Settings, s: State, id: nat, raw: string, now: Time)
    requires Enabled(s, Commit(id, raw, now)) && s.requests[id].Allocated?
    ensures var s' := Apply(c, s, Commit(id, raw, now));
            var (p, ip) := (s.requests[id].payload, s.requests[id].ip);
            if InsertRouter(c.hash, c.columns, s.tables, p, ip, raw, now).Some?
            then && s'.requests[id].Syncing? && InsertAccepted(c.columns, p)
                 && s'.tables.routers == s.tables.routers + [NewRow(p, c.columns.mac(p.mac).value, ip, now)]
            else s' == RolledBack(s, id)
  {
  }

  /** The state after a transaction that the database aborted: only the request has moved. */
  function RolledBack(s: State, id: nat): State {
    s.(requests := s.requests[id := Done(Rejected(500))], steps := s.steps + 1)
  }

  /** A first enrolment commits exactly when the columns accept its payload, the payload collides
      with no row, and its address is still the next one of the pool. Any other attempt is rolled
      back. */
  lemma FirstEnrolmentCommitsExactly(c: Settings, file: Option<string>, s: State, id: nat, raw: string, now: Time)
    requires Deployed(c) && Reachable(c, file, s)
    requires Enabled(s, Commit(id, raw, now)) && s.requests[id].Allocated?
    ensures var s' := Apply(c, s, Commit(id, raw, now));
            var rows := s.tables.routers;
            var (p, ip) := (s.requests[id].payload, s.requests[id].ip);
            if Insertable(c, rows, p, ip)
            then && s'.requests[id].Syncing?
                 && s'.tables.routers == rows + [NewRow(p, c.columns.mac(p.mac).value, ip, now)]
            else s' == RolledBack(s, id)
  {
    ReachableRouters(c, file, s);
    ReachablePhase(c, file, s, id);
    InsertExactly(c, s.tables, s.requests[id].payload, s.requests[id].ip, raw, now);
    InsertOutcome(c, s, id, raw, now);
  }

  lemma InsertExactly(c: Settings, t: Tables, p: Payload, ip: Address, raw: string, now: Time)
    requires RoutersOk(c, t.routers) && WasNext(c, |t.routers|, ip)
    ensures InsertRouter(c.hash, c.columns, t, p, ip, raw, now).Some? <==> Insertable(c, t.routers, p, ip)
  {
    if InsertAccepted(c.columns, p) {
      var rows, mac := t.routers, c.columns.mac(p.mac).value;
      var row := NewRow(p, mac, ip, now);
      forall i | 0 <= i < |rows|
        ensures Clash(rows[i], row) <==> !SharesNothing(rows[i], p, mac) || PoolOf(c)[i] == ip
      {
        assert HasIp(rows[i], PoolOf(c)[i]) && HasKey(rows[i]);
      }
      if InsertRouter(c.hash, c.columns, t, p, ip, raw, now).Some? {
        InsertTakesNext(c, t, p, ip, raw, now);
      }
    }
  }

  /** The columns that are written accept the payload, and no other row holds the identity, MAC or
      key that is written. */
  predicate Updatable(c: Settings, rows: seq<RouterRow>, r: nat, loaded: RouterRow, p: Payload) {
    && UpdateAccepted(c.columns, loaded, p)
    && forall i :: 0 <= i < |rows| && i != r ==>
         && (p.identity != loaded.identity ==> rows[i].identity != p.identity)
         && (p.mac != loaded.mac ==> rows[i].mac != c.columns.mac(p.mac).value)
         && (Some(p.publicKey) != loaded.publicKey ==> rows[i].publicKey != Some(p.publicKey))
  }

  lemma ReenrolOutcome(c: Settings, s: State, id: nat, raw: string, now: Time)
    requires Enabled(s, Commit(id, raw, now)) && s.requests[id].Found?
    requires s.requests[id].routerId < |s.tables.routers|
    ensures var s' := Apply(c, s, Commit(id, raw, now));
            var Found(p, r, loaded) := s.requests[id];
            if Reenrol(c.hash, c.columns, s.tables, r, loaded, p, raw, now).Some?
            then && s'.requests[id].Syncing? && UpdateAccepted(c.columns, loaded, p)
                 && s'.tables.routers
                    == s.tables.routers[r := UpdatedRow(c.columns, s.tables.routers[r], loaded, p, now)]
                 && s'.log == s.log + [Enrolment(r, p.serial, raw)]
            else s' == RolledBack(s, id)
  {
  }

  /** A re-enrolment finds the row of its serial, and commits exactly when the columns that it
      writes accept their values and no other row holds a value written. What it writes is what
      differs from the row as its lookup read it. */
  lemma ReenrolmentCommitsExactly(c: Settings, file: Option<string>, s: State, id: nat, raw: string, now: Time)
    requires Deployed(c) && Reachable(c, file, s)
    requires Enabled(s, Commit(id, raw, now)) && s.requests[id].Found?
    ensures var s' := Apply(c, s, Commit(id, raw, now));
            var rows := s.tables.routers;
            var Found(p, r, loaded) := s.requests[id];
            && r < |rows| && rows[r].serial == p.serial
            && if Updatable(c, rows, r, loaded, p)
               then && s'.requests[id].Syncing?
                    && s'.tables.routers == rows[r := UpdatedRow(c.columns, rows[r], loaded, p, now)]
                    && s'.log == s.log + [Enrolment(r, p.serial, raw)]
               else s' == RolledBack(s, id)
  {
    ReachableRouters(c, file, s);
    ReachablePhase(c, file, s, id);
    var Found(p, r, loaded) := s.requests[id];
    ReenrolExactly(c, s.tables, r, loaded, p, raw, now);
    ReenrolOutcome(c, s, id, raw, now);
  }

  lemma ReenrolExactly(c: Settings, t: Tables, r: nat, loaded: RouterRow, p: Payload, raw: string, now: Time)
    requires RoutersOk(c, t.routers) && r < |t.routers|
    ensures Reenrol(c.hash, c.columns, t, r, loaded, p, raw, now).Some? <==> Updatable(c, t.routers, r, loaded, p)
  {
    if UpdateAccepted(c.columns, loaded, p) {
      var rows := t.routers;
      var row := UpdatedRow(c.columns, rows[r], loaded, p, now);
      forall i | 0 <= i < |rows| && i != r
        ensures Clash(rows[i], row) <==>
                  || (p.identity != loaded.identity && rows[i].identity == p.identity)
                  || (p.mac != loaded.mac && rows[i].mac == c.columns.mac(p.mac).value)
                  || (Some(p.publicKey) != loaded.publicKey && rows[i].publicKey == Some(p.publicKey))
      {
        assert !Clash(rows[if i < r then i else r], rows[if i < r then r else i]);
        assert HasKey(rows[i]);
      }
    }
  }

  // ----- what a commit writes, field by field ---------------------------------------

  /** Nothing but rows, tokens, history and the request itself has changed. */
  predicate OnlyCommitted(s: State, s': State, id: nat) {
    && id in s.requests && id in s'.requests && s'.requests == s.requests[id := s'.requests[id]]
    && s'.file == s.file && s'.fileFrom == s.fileFrom && s'.buckets == s.buckets
  }

  lemma InsertWrites(c: Settings, s: State, id: nat, raw: string, now: Time)
    requires Enabled(s, Commit(id, raw, now)) && s.requests[id].Allocated?
    requires Apply(c, s, Commit(id, raw, now)).requests[id].Syncing?
    ensures var s' := Apply(c, s, Commit(id, raw, now));
            var (p, ip, n) := (s.requests[id].payload, s.requests[id].ip, |s.tables.routers|);
            && c.columns.mac(p.mac).Some? && OnlyCommitted(s, s', id)
            && s'.tables.routers == s.tables.routers + [NewRow(p, c.columns.mac(p.mac).value, ip, now)]
            && s'.tables.tokens == s.tables.tokens + [MintedRow(c.hash, n, raw)]
            && s'.log == s.log + [Enrolment(n, p.serial, raw)]
            && s'.requests[id] == Syncing(ForEnrolment(Enrolment(n, p.serial, raw), Some(ip)))
  {
    hide AutoApproved, PrefixOf;
  }

  /** What a first enrolment commits. The row has the fields of the payload, the address and the time,
      and is active exactly when the identity is a line of the documented form, or one with a newline
      after it; one token is minted; and the answer will be about that row, address and token. */
  lemma FirstEnrolmentWrites(c: Settings, file: Option<string>, s: State, id: nat, raw: string, now: Time)
    requires Deployed(c) && Reachable(c, file, s)
    requires Enabled(s, Commit(id, raw, now)) && s.requests[id].Allocated?
    requires Apply(c, s, Commit(id, raw, now)).requests[id].Syncing?
    ensures var s' := Apply(c, s, Commit(id, raw, now));
            var (p, ip, n) := (s.requests[id].payload, s.requests[id].ip, |s.tables.routers|);
            && OnlyCommitted(s, s', id)
            && |s'.tables.routers| == n + 1 && s'.tables.routers[..n] == s.tables.routers
            && var row := s'.tables.routers[n];
            && row.identity == p.identity && row.serial == p.serial && c.columns.mac(p.mac) == Some(row.mac)
            && row.device == p.device && row.publicKey == Some(p.publicKey) && row.overlayIp == Some(ip)
            && row.status == (if Named(p.identity) || exists line :: p.identity == line + "\n" && Named(line)
                              then Active else Pending)
            && row.enrolledAt == Some(now) && row.lastSeenAt == None
            && s'.tables.tokens[..|s.tables.tokens|] == s.tables.tokens
            && OneMinted(s.tables.tokens, s'.tables.tokens, c.hash, n, raw)
            && s'.log == s.log + [Enrolment(n, p.serial, raw)]
            && s'.requests[id] == Syncing(ForEnrolment(Enrolment(n, p.serial, raw), Some(ip)))
  {
    InsertWrites(c, s, id, raw, now);
    hide Apply, NewRow, MintedRow, AutoApproved, Named;
    var p := s.requests[id].payload;
    NewRowIsFirst(p, c.columns.mac(p.mac).value, s.requests[id].ip, now);
    MintingIsExact(c.hash, s.tables.tokens, |s.tables.routers|, raw, now);
  }

  /** The conditions of the insert, column by column. */
  lemma InsertableExactly(c: Settings, rows: seq<RouterRow>, p: Payload, ip: Address)
    ensures Insertable(c, rows, p, ip) <==>
              && c.columns.text(p.identity) && c.columns.text(p.serial) && c.columns.text(p.publicKey)
              && c.columns.text(p.device.model) && c.columns.text(p.device.rosVersion)
              && |rows| < |PoolOf(c)| && ip == PoolOf(c)[|rows|]
              && c.columns.mac(p.mac).Some?
              && forall i :: 0 <= i < |rows| ==>
                   && rows[i].identity != p.identity && rows[i].serial != p.serial
                   && Some(rows[i].mac) != c.columns.mac(p.mac) && rows[i].publicKey != Some(p.publicKey)
  {
    if c.columns.mac(p.mac).Some? {
      forall i | 0 <= i < |rows|
        ensures SharesNothing(rows[i], p, c.columns.mac(p.mac).value) <==>
                  && rows[i].identity != p.identity && rows[i].serial != p.serial
                  && Some(rows[i].mac) != c.columns.mac(p.mac) && rows[i].publicKey != Some(p.publicKey)
      {
      }
    }
  }

  lemma UpdateWrites(c: Settings, s: State, id: nat, raw: string, now: Time)
    requires Enabled(s, Commit(id, raw, now)) && s.requests[id].Found?
    requires s.requests[id].routerId < |s.tables.routers|
    requires Apply(c, s, Commit(id, raw, now)).requests[id].Syncing?
    ensures var s' := Apply(c, s, Commit(id, raw, now));
            var Found(p, r, loaded) := s.requests[id];
            && UpdateAccepted(c.columns, loaded, p) && OnlyCommitted(s, s', id)
            && s'.tables.routers
               == s.tables.routers[r := UpdatedRow(c.columns, s.tables.routers[r], loaded, p, now)]
            && s'.tables.tokens == RevokeAll(s.tables.tokens, r, now) + [MintedRow(c.hash, r, raw)]
            && s'.log == s.log + [Enrolment(r, p.serial, raw)]
            && s'.requests[id] == Syncing(ForEnrolment(Enrolment(r, p.serial, raw), loaded.overlayIp))
  {
    hide PrefixOf;
  }

  /** What a re-enrolment commits: in the row of its serial exactly the columns that differ from what
      was loaded; its unrevoked tokens are revoked and one is minted; every other row and token is
      left alone; and the answer will be about that row, its address and the new token. */
  lemma ReenrolmentWrites(c: Settings, file: Option<string>, s: State, id: nat, raw: string, now: Time)
    requires Deployed(c) && Reachable(c, file, s)
    requires Enabled(s, Commit(id, raw, now)) && s.requests[id].Found?
    requires Apply(c, s, Commit(id, raw, now)).requests[id].Syncing?
    ensures var s' := Apply(c, s, Commit(id, raw, now));
            var Found(p, r, loaded) := s.requests[id];
            && OnlyCommitted(s, s', id)
            && r < |s.tables.routers| == |s'.tables.routers| && s.tables.routers[r].serial == p.serial
            && s'.tables.routers == s.tables.routers[r := s'.tables.routers[r]]
            && NextRow(s'.tables.routers[r], s.tables.routers[r], loaded, p, c.columns, now)
            && OldRevoked(s.tables.tokens, s'.tables.tokens, r, now)
            && OneMinted(s.tables.tokens, s'.tables.tokens, c.hash, r, raw)
            && s'.log == s.log + [Enrolment(r, p.serial, raw)]
            && s'.requests[id] == Syncing(ForEnrolment(Enrolment(r, p.serial, raw), s'.tables.routers[r].overlayIp))
  {
    ReachableRouters(c, file, s);
    ReachablePhase(c, file, s, id);
    UpdateWrites(c, s, id, raw, now);
    hide Apply, UpdatedRow, MintedRow, NextRow, RoutersOk;
    var Found(p, r, loaded) := s.requests[id];
    UpdatedRowIsNext(c.columns, s.tables.routers[r], loaded, p, now);
    NextRowKeepsAddress(s.tables.routers[r], loaded, p, c.columns, now);
    MintingIsExact(c.hash, s.tables.tokens, r, raw, now);
  }

  lemma NextRowKeepsAddress(current: RouterRow, loaded: RouterRow, p: Payload, cols: Columns, now: Time)
    requires UpdateAccepted(cols, loaded, p)
    ensures UpdatedRow(cols, current, loaded, p, now).overlayIp == current.overlayIp
  {
  }

  /** The conditions of the update, column by column: what is written must be accepted and free. */
  lemma UpdatableExactly(c: Settings, rows: seq<RouterRow>, r: nat, loaded: RouterRow, p: Payload)
    ensures Updatable(c, rows, r, loaded, p) <==>
              && (p.device.model != loaded.device.model ==> c.columns.text(p.device.model))
              && (p.device.rosVersion != loaded.device.rosVersion ==> c.columns.text(p.device.rosVersion))
              && (p.identity != loaded.identity ==>
                    && c.columns.text(p.identity)
                    && forall i :: 0 <= i < |rows| && i != r ==> rows[i].identity != p.identity)
              && (p.mac != loaded.mac ==>
                    && c.columns.mac(p.mac).Some?
                    && forall i :: 0 <= i < |rows| && i != r ==> Some(rows[i].mac) != c.columns.mac(p.mac))
              && (Some(p.publicKey) != loaded.publicKey ==>
                    && c.columns.text(p.publicKey)
                    && forall i :: 0 <= i < |rows| && i != r ==> rows[i].publicKey != Some(p.publicKey))
  {
  }

  // ----- retries --------------------------------------------------------------------

  /** All successful answers for one serial, whenever they were given and whatever failed in
      between, name the same router and the same overlay address. */
  lemma RetriesAnswerAlike(c: Settings, file: Option<string>, run: seq<Step>, j: nat, k: nat, first: nat, second: nat)
    requires Deployed(c) && IsRun(c, file, run) && j <= k <= |run|
    requires var s := StateAt(c, file, run, j);
             first in s.requests && s.requests[first].Done? && s.requests[first].response.Provision?
    requires var s := StateAt(c, file, run, k);
             second in s.requests && s.requests[second].Done? && s.requests[second].response.Provision?
    requires StateAt(c, file, run, j).requests[first].response.enrolment.serial
          == StateAt(c, file, run, k).requests[second].response.enrolment.serial
    ensures var a := StateAt(c, file, run, j).requests[first].response;
            var b := StateAt(c, file, run, k).requests[second].response;
            a.enrolment.routerId == b.enrolment.routerId && a.overlayIp == b.overlayIp
  {
    hide Apply, Exec, Inv, Extends, EnrolmentOk, UniqueRows;
    var s, t := StateAt(c, file, run, j), StateAt(c, file, run, k);
    AnsweredOk(c, file, run, j, first);
    AnsweredOk(c, file, run, k, second);
    RoutersPersist(c, file, run, j, k);
    SameAnswer(s.tables.routers, s.log, s.requests[first].response,
               t.tables.routers, t.log, t.requests[second].response);
  }

  lemma AnsweredOk(c: Settings, file: Option<string>, run: seq<Step>, k: nat, id: nat)
    requires Deployed(c) && IsRun(c, file, run) && k <= |run|
    requires var s := StateAt(c, file, run, k);
             id in s.requests && s.requests[id].Done? && s.requests[id].response.Provision?
    ensures var s := StateAt(c, file, run, k);
            var answer := s.requests[id].response;
            && UniqueRows(s.tables.routers)
            && EnrolmentOk(s.tables.routers, s.log, answer.enrolment, answer.overlayIp)
  {
    hide Apply, Exec, Inv, UniqueRows, EnrolmentOk;
    StateInv(c, file, run, k);
    InvPhase(c, file, StateAt(c, file, run, k), id);
  }

  lemma SameAnswer(rows: seq<RouterRow>, log: seq<Enrolment>, a: Response,
                   later: seq<RouterRow>, longer: seq<Enrolment>, b: Response)
    requires a.Provision? && b.Provision? && a.enrolment.serial == b.enrolment.serial
    requires EnrolmentOk(rows, log, a.enrolment, a.overlayIp) && EnrolmentOk(later, longer, b.enrolment, b.overlayIp)
    requires Extends(rows, later) && UniqueRows(later)
    ensures a.enrolment.routerId == b.enrolment.routerId && a.overlayIp == b.overlayIp
  {
    OneRowPerSerial(later, a.enrolment.routerId, b.enrolment.routerId);
  }

  lemma OneRowPerSerial(rows: seq<RouterRow>, i: nat, j: nat)
    requires UniqueRows(rows) && i < |rows| && j < |rows| && rows[i].serial == rows[j].serial
    ensures i == j
  {
    if i < j {
      assert Clash(rows[i], rows[j]);
    } else if j < i {
      assert Clash(rows[j], rows[i]);
    }
  }
}

/** What every step of the control plane keeps. */
module Invariant {
  import opened Wrappers
  import opened Inet
  import opened Overlay
  import opened RateLimit
  import opened RequestChecks
  import opened Database
  import opened WgConfig
  import opened ControlPlane
  import opened RouterTokens
  import KeyCodec
  import Peers

  function PoolOf(c: Settings): seq<nat> {
    Pool(c.network, c.serverIp)
  }

  // ----- routers --------------------------------------------------------------------

  predicate HasIp(row: RouterRow, ip: nat) {
    row.overlayIp.Some? && row.overlayIp.value == ip
  }

  predicate HasKey(row: RouterRow) {
    row.publicKey.Some? && |row.publicKey.value| == 44 && KeyCodec.ValidatePublicKey(row.publicKey.value).Success?
  }

  /** The constraints hold, and the i-th router ever enrolled has the i-th address of the pool. */
  predicate RoutersOk(c: Settings, rows: seq<RouterRow>) {
    && UniqueRows(rows)
    && |rows| <= |PoolOf(c)|
    && forall i :: 0 <= i < |rows| ==> HasIp(rows[i], PoolOf(c)[i]) && HasKey(rows[i])
  }

  /** Routers stay, with their serial and their address. */
  predicate Extends(rows: seq<RouterRow>, later: seq<RouterRow>) {
    && |rows| <= |later|
    && forall i :: 0 <= i < |rows| ==> later[i].serial == rows[i].serial && later[i].overlayIp == rows[i].overlayIp
  }

  /** The same routers, apart from status and times. */
  predicate SameIdentities(rows: seq<RouterRow>, later: seq<RouterRow>) {
    && |rows| == |later|
    && forall i :: 0 <= i < |rows| ==>
         later[i] == rows[i].(status := later[i].status, enrolledAt := later[i].enrolledAt,
                              lastSeenAt := later[i].lastSeenAt)
  }

  lemma SameIdentitiesKeep(c: Settings, rows: seq<RouterRow>, later: seq<RouterRow>)
    requires RoutersOk(c, rows) && SameIdentities(rows, later)
    ensures RoutersOk(c, later) && Extends(rows, later)
  {
    forall i, j | 0 <= i < j < |later| ensures !Clash(later[i], later[j]) {
      assert !Clash(rows[i], rows[j]);
    }
  }

  // ----- history and tokens ---------------------------------------------------------

  /** The router of entry i enrolled again later. */
  predicate Superseded(log: seq<Enrolment>, i: nat)
    requires i < |log|
  {
    exists j :: i < j < |log| && log[j].routerId == log[i].routerId
  }

  predicate LogOk(rows: seq<RouterRow>, log: seq<Enrolment>) {
    && (forall i :: 0 <= i < |log| ==>
          log[i].routerId < |rows| && log[i].serial == rows[log[i].routerId].serial && |log[i].raw| >= PREFIX_LEN)
    && (forall i, j :: 0 <= i < j < |log| ==> log[i].raw != log[j].raw)
    && (forall id :: 0 <= id < |rows| ==> HasEntry(log, id))
  }

  predicate HasEntry(log: seq<Enrolment>, id: nat) {
    exists i :: 0 <= i < |log| && log[i].routerId == id
  }

  /** Token i was minted by the i-th enrolment, and is revoked exactly when that router enrolled
      again since. */
  predicate TokensOk(hash: Hash, tokens: seq<TokenRow>, log: seq<Enrolment>) {
    && |tokens| == |log|
    && forall i :: 0 <= i < |log| ==>
         && tokens[i] == MintedRow(hash, log[i].routerId, log[i].raw).(revokedAt := tokens[i].revokedAt)
         && (tokens[i].revokedAt.Some? <==> Superseded(log, i))
  }

  lemma SupersededAppend(log: seq<Enrolment>, e: Enrolment, i: nat)
    requires i < |log|
    ensures Superseded(log + [e], i) <==> Superseded(log, i) || log[i].routerId == e.routerId
  {
    var log' := log + [e];
    if log[i].routerId == e.routerId {
      assert log'[|log|].routerId == log'[i].routerId;
    } else if Superseded(log, i) {
      var j :| i < j < |log| && log[j].routerId == log[i].routerId;
      assert log'[j].routerId == log'[i].routerId;
    }
  }

  lemma MintKeepsTokens(hash: Hash, tokens: seq<TokenRow>, log: seq<Enrolment>, e: Enrolment, now: Time)
    requires TokensOk(hash, tokens, log)
    ensures TokensOk(hash, RevokeAll(tokens, e.routerId, now) + [MintedRow(hash, e.routerId, e.raw)], log + [e])
  {
    forall i | 0 <= i < |log|
      ensures Superseded(log + [e], i) <==> Superseded(log, i) || log[i].routerId == e.routerId
    {
      SupersededAppend(log, e, i);
    }
    assert !Superseded(log + [e], |log|);
  }

  /** A router without tokens has none to revoke. */
  lemma NothingToRevoke(hash: Hash, tokens: seq<TokenRow>, log: seq<Enrolment>, id: nat, now: Time)
    requires TokensOk(hash, tokens, log) && forall i :: 0 <= i < |log| ==> log[i].routerId != id
    ensures RevokeAll(tokens, id, now) == tokens
  {
  }

  // ----- requests and the file ------------------------------------------------------

  predicate EnrolmentOk(rows: seq<RouterRow>, log: seq<Enrolment>, e: Enrolment, ip: Option<Address>) {
    && e in log && e.routerId < |rows| && rows[e.routerId].serial == e.serial
    && ip.Some? && rows[e.routerId].overlayIp == ip
  }

  predicate JobOk(rows: seq<RouterRow>, log: seq<Enrolment>, job: Job) {
    job.ForEnrolment? ==> EnrolmentOk(rows, log, job.enrolment, job.overlayIp)
  }

  /** An allocated address is the next one of some earlier table. */
  predicate WasNext(c: Settings, count: nat, ip: Address) {
    exists m :: 0 <= m < |PoolOf(c)| && m <= count && PoolOf(c)[m] == ip
  }

  predicate PhaseOk(c: Settings, file0: Option<string>, rows: seq<RouterRow>, log: seq<Enrolment>, phase: Phase) {
    match phase
    case Admitted(p) => ValidPayload(p)
    case NotFound(p) => ValidPayload(p)
    case Found(p, id, loaded) =>
      && ValidPayload(p) && id < |rows| && rows[id].serial == p.serial
      && loaded.serial == p.serial && loaded.overlayIp == rows[id].overlayIp
    case Allocated(p, ip) => ValidPayload(p) && WasNext(c, |rows|, ip)
    case Syncing(job) => JobOk(rows, log, job)
    case Fetched(job, _, _) => JobOk(rows, log, job)
    case Composed(job, _, _, block) =>
      JobOk(rows, log, job) && file0.Some? && block == InterfaceBlock(c.conf, file0.value)
    case Replaced(job) => JobOk(rows, log, job)
    case Charged(_) => true
    case Known(beat) => beat.routerId < |rows|
    case Limited(beat) => beat.routerId < |rows|
    case Cleared(beat) => beat.routerId < |rows|
    case Done(response) => response.Provision? ==> EnrolmentOk(rows, log, response.enrolment, response.overlayIp)
  }

  predicate RequestsOk(c: Settings, file0: Option<string>, rows: seq<RouterRow>, log: seq<Enrolment>,
                       requests: map<nat, Phase>) {
    forall id :: id in requests ==> PhaseOk(c, file0, rows, log, requests[id])
  }

  lemma PhaseStaysOk(c: Settings, file0: Option<string>, rows: seq<RouterRow>, log: seq<Enrolment>,
                     rows': seq<RouterRow>, log': seq<Enrolment>, phase: Phase)
    requires PhaseOk(c, file0, rows, log, phase) && Extends(rows, rows') && log <= log'
    ensures PhaseOk(c, file0, rows', log', phase)
  {
    if phase.Allocated? {
      var m :| 0 <= m < |PoolOf(c)| && m <= |rows| && PoolOf(c)[m] == phase.ip;
      assert m <= |rows'|;
    }
  }

  lemma RequestsStayOk(c: Settings, file0: Option<string>, rows: seq<RouterRow>, log: seq<Enrolment>,
                       rows': seq<RouterRow>, log': seq<Enrolment>, requests: map<nat, Phase>)
    requires RequestsOk(c, file0, rows, log, requests) && Extends(rows, rows') && log <= log'
    ensures RequestsOk(c, file0, rows', log', requests)
  {
    forall id | id in requests ensures PhaseOk(c, file0, rows', log', requests[id]) {
      PhaseStaysOk(c, file0, rows, log, rows', log', requests[id]);
    }
  }

  /** The file keeps the interface block it started with. */
  predicate FileOk(c: Settings, file0: Option<string>, file: Option<string>) {
    && (file.Some? <==> file0.Some?)
    && (file.Some? ==> InterfaceBlock(c.conf, file.value) == InterfaceBlock(c.conf, file0.value))
  }

  // ----- the invariant --------------------------------------------------------------

  predicate Inv(c: Settings, file0: Option<string>, s: State) {
    && RoutersOk(c, s.tables.routers)
    && LogOk(s.tables.routers, s.log)
    && TokensOk(c.hash, s.tables.tokens, s.log)
    && RequestsOk(c, file0, s.tables.routers, s.log, s.requests)
    && FileOk(c, file0, s.file)
  }

  lemma InitInv(c: Settings, file0: Option<string>)
    ensures Inv(c, file0, Init(file0))
  {
  }

  lemma MoveInv(c: Settings, file0: Option<string>, s: State, id: nat, phase: Phase)
    requires Inv(c, file0, s) && PhaseOk(c, file0, s.tables.routers, s.log, phase)
    ensures Inv(c, file0, Move(s, id, phase))
  {
  }

  lemma InvPhase(c: Settings, file: Option<string>, s: State, id: nat)
    requires Inv(c, file, s) && id in s.requests
    ensures PhaseOk(c, file, s.tables.routers, s.log, s.requests[id]) && UniqueRows(s.tables.routers)
  {
  }

  lemma UsedIsPoolPrefix(c: Settings, rows: seq<RouterRow>)
    requires RoutersOk(c, rows)
    ensures UsedIps(rows) == Elements(PoolOf(c)[..|rows|])
  {
    var prefix := PoolOf(c)[..|rows|];
    forall x | x in UsedIps(rows) ensures x in Elements(prefix) {
      var i :| 0 <= i < |rows| && rows[i].overlayIp.Some? && rows[i].overlayIp.value == x;
      assert prefix[i] == x;
    }
    forall x | x in Elements(prefix) ensures x in UsedIps(rows) {
      var i :| 0 <= i < |prefix| && prefix[i] == x;
      assert HasIp(rows[i], x);
    }
  }

  /** The allocator answers the next address of the pool, or fails when all are taken. */
  lemma AllocatorAnswers(c: Settings, rows: seq<RouterRow>)
    requires RoutersOk(c, rows)
    ensures Allocate(c.network, c.serverIp, UsedIps(rows))
         == if |rows| < |PoolOf(c)| then Some(PoolOf(c)[|rows|]) else None
  {
    UsedIsPoolPrefix(c, rows);
    AllocatesNext(c.network, c.serverIp, |rows|);
  }

  lemma AllocationOk(c: Settings, rows: seq<RouterRow>)
    requires RoutersOk(c, rows)
    ensures var r := Allocate(c.network, c.serverIp, UsedIps(rows));
            r.Some? && r.value < 0x1_0000_0000 ==> WasNext(c, |rows|, r.value)
  {
    AllocatorAnswers(c, rows);
  }

  lemma LookupInLog(hash: Hash, t: Tables, log: seq<Enrolment>, raw: string)
    requires TokensOk(hash, t.tokens, log) && LogOk(t.routers, log)
    ensures var found := IndexedLookup(hash, t.tokens, raw);
            found.Some? ==> found.value < |t.tokens| && t.tokens[found.value].routerId < |t.routers|
  {
  }

  lemma FindTokenOk(c: Settings, file0: Option<string>, s: State, phase: Phase)
    requires TokensOk(c.hash, s.tables.tokens, s.log) && LogOk(s.tables.routers, s.log) && phase.Charged?
    ensures PhaseOk(c, file0, s.tables.routers, s.log, Advance(c, s, phase))
  {
    hide TokensOk, LogOk;
    LookupInLog(c.hash, s.tables, s.log, phase.beat.raw);
  }

  lemma AdvanceOk(c: Settings, file0: Option<string>, s: State, phase: Phase)
    requires RoutersOk(c, s.tables.routers) && FileOk(c, file0, s.file) && !phase.Charged?
    requires PhaseOk(c, file0, s.tables.routers, s.log, phase)
    ensures PhaseOk(c, file0, s.tables.routers, s.log, Advance(c, s, phase))
  {
    hide Allocate, UsedIps, FindSerial, Peers.ActivePeers, RoutersOk, WasNext, EnrolmentOk, InterfaceBlock;
    hide ValidPayload;
    if phase.NotFound? {
      AllocationOk(c, s.tables.routers);
    }
  }

  lemma GatesOk(c: Settings, file0: Option<string>, s: State, now: Time, sourceIp: string, secret: Option<string>,
                p: Payload)
    ensures PhaseOk(c, file0, s.tables.routers, s.log, Gates(c, s.buckets, now, sourceIp, secret, p).1)
  {
  }

  // ----- commits --------------------------------------------------------------------

  lemma InsertAvoidsUsed(c: Settings, t: Tables, p: Payload, ip: Address, raw: string, now: Time)
    requires RoutersOk(c, t.routers) && InsertRouter(c.hash, c.columns, t, p, ip, raw, now).Some?
    ensures forall i :: 0 <= i < |t.routers| ==> PoolOf(c)[i] != ip
  {
    forall i | 0 <= i < |t.routers| ensures PoolOf(c)[i] != ip {
      assert HasIp(t.routers[i], PoolOf(c)[i]);
      assert !Clash(t.routers[i], NewRow(p, c.columns.mac(p.mac).value, ip, now));
    }
  }

  /** A stale address is caught by the UNIQUE constraint: an insert that commits takes exactly
      the next address of the pool. */
  lemma InsertTakesNext(c: Settings, t: Tables, p: Payload, ip: Address, raw: string, now: Time)
    requires RoutersOk(c, t.routers) && WasNext(c, |t.routers|, ip)
    requires InsertRouter(c.hash, c.columns, t, p, ip, raw, now).Some?
    ensures |t.routers| < |PoolOf(c)| && PoolOf(c)[|t.routers|] == ip
  {
    InsertAvoidsUsed(c, t, p, ip, raw, now);
  }

  lemma InsertKeepsRouters(c: Settings, t: Tables, p: Payload, ip: Address, raw: string, now: Time)
    requires RoutersOk(c, t.routers) && ValidPayload(p) && WasNext(c, |t.routers|, ip)
    requires InsertRouter(c.hash, c.columns, t, p, ip, raw, now).Some?
    ensures var t' := InsertRouter(c.hash, c.columns, t, p, ip, raw, now).value;
            RoutersOk(c, t'.routers) && Extends(t.routers, t'.routers)
  {
    hide Clash, UniqueRows, WasNext, AutoApproved;
    InsertTakesNext(c, t, p, ip, raw, now);
    InsertKeepsUnique(c.hash, c.columns, t, p, ip, raw, now);
  }

  lemma InsertOk(c: Settings, t: Tables, log: seq<Enrolment>, p: Payload, ip: Address, raw: string, now: Time)
    requires RoutersOk(c, t.routers) && LogOk(t.routers, log) && TokensOk(c.hash, t.tokens, log)
    requires ValidPayload(p) && WasNext(c, |t.routers|, ip)
    requires |raw| >= PREFIX_LEN && !Minted(log, raw)
    requires InsertRouter(c.hash, c.columns, t, p, ip, raw, now).Some?
    ensures var t' := InsertRouter(c.hash, c.columns, t, p, ip, raw, now).value;
            var log' := log + [Enrolment(|t.routers|, p.serial, raw)];
            && RoutersOk(c, t'.routers) && Extends(t.routers, t'.routers)
            && LogOk(t'.routers, log') && TokensOk(c.hash, t'.tokens, log')
  {
    var t' := InsertRouter(c.hash, c.columns, t, p, ip, raw, now).value;
    var e := Enrolment(|t.routers|, p.serial, raw);
    InsertKeepsRouters(c, t, p, ip, raw, now);
    hide RoutersOk, WasNext, ValidPayload, AutoApproved, TokensOk, Clash;
    NothingToRevoke(c.hash, t.tokens, log, |t.routers|, now);
    MintKeepsTokens(c.hash, t.tokens, log, e, now);
    LogAppend(t.routers, t'.routers, log, e);
  }

  lemma LogAppend(rows: seq<RouterRow>, rows': seq<RouterRow>, log: seq<Enrolment>, e: Enrolment)
    requires LogOk(rows, log) && Extends(rows, rows') && |rows'| <= |rows| + 1
    requires e.routerId < |rows'| && e.serial == rows'[e.routerId].serial
    requires |rows'| == |rows| + 1 ==> e.routerId == |rows|
    requires |e.raw| >= PREFIX_LEN && !Minted(log, e.raw)
    ensures LogOk(rows', log + [e])
  {
    var log' := log + [e];
    forall id | 0 <= id < |rows'| ensures HasEntry(log', id) {
      if id < |rows| {
        assert HasEntry(log, id);
        var i :| 0 <= i < |log| && log[i].routerId == id;
        assert log'[i].routerId == id;
      } else {
        assert log'[|log|].routerId == id;
      }
    }
  }

  lemma ReenrolOk(c: Settings, t: Tables, log: seq<Enrolment>, id: nat, loaded: RouterRow, p: Payload,
                  raw: string, now: Time)
    requires RoutersOk(c, t.routers) && LogOk(t.routers, log) && TokensOk(c.hash, t.tokens, log)
    requires ValidPayload(p) && id < |t.routers| && t.routers[id].serial == p.serial
    requires |raw| >= PREFIX_LEN && !Minted(log, raw)
    requires Reenrol(c.hash, c.columns, t, id, loaded, p, raw, now).Some?
    ensures var t' := Reenrol(c.hash, c.columns, t, id, loaded, p, raw, now).value;
            var log' := log + [Enrolment(id, p.serial, raw)];
            && RoutersOk(c, t'.routers) && Extends(t.routers, t'.routers)
            && LogOk(t'.routers, log') && TokensOk(c.hash, t'.tokens, log')
  {
    var t' := Reenrol(c.hash, c.columns, t, id, loaded, p, raw, now).value;
    var e := Enrolment(id, p.serial, raw);
    ReenrolKeepsUnique(c.hash, c.columns, t, id, loaded, p, raw, now);
    MintKeepsTokens(c.hash, t.tokens, log, e, now);
    LogAppend(t.routers, t'.routers, log, e);
  }

  lemma CommittedInv(c: Settings, file0: Option<string>, s: State, id: nat, t': Tables, e: Enrolment,
                    ip: Option<Address>)
    requires Inv(c, file0, s)
    requires RoutersOk(c, t'.routers) && Extends(s.tables.routers, t'.routers)
    requires LogOk(t'.routers, s.log + [e]) && TokensOk(c.hash, t'.tokens, s.log + [e])
    requires e.routerId < |t'.routers| && t'.routers[e.routerId].serial == e.serial
    requires ip.Some? && t'.routers[e.routerId].overlayIp == ip
    ensures Inv(c, file0, Move(s, id, Syncing(ForEnrolment(e, ip))).(tables := t', log := s.log + [e]))
  {
    RequestsStayOk(c, file0, s.tables.routers, s.log, t'.routers, s.log + [e], s.requests);
    CommittedPhase(t'.routers, s.log, e, ip);
  }

  lemma CommitNewInv(c: Settings, file0: Option<string>, s: State, id: nat, raw: string, now: Time)
    requires Inv(c, file0, s) && Enabled(s, Commit(id, raw, now)) && s.requests[id].Allocated?
    ensures Inv(c, file0, Apply(c, s, Commit(id, raw, now)))
  {
    var phase := s.requests[id];
    assert PhaseOk(c, file0, s.tables.routers, s.log, phase);
    var committed := InsertRouter(c.hash, c.columns, s.tables, phase.payload, phase.ip, raw, now);
    if committed.Some? {
      var e := Enrolment(|s.tables.routers|, phase.payload.serial, raw);
      InsertOk(c, s.tables, s.log, phase.payload, phase.ip, raw, now);
      CommittedInv(c, file0, s, id, committed.value, e, Some(phase.ip));
    } else {
      MoveInv(c, file0, s, id, Done(Rejected(500)));
    }
  }

  lemma ReenrolCommits(c: Settings, file0: Option<string>, s: State, id: nat, routerId: nat, loaded: RouterRow,
                       p: Payload, raw: string, now: Time)
    requires Inv(c, file0, s) && PhaseOk(c, file0, s.tables.routers, s.log, Found(p, routerId, loaded))
    requires |raw| >= PREFIX_LEN && !Minted(s.log, raw)
    requires Reenrol(c.hash, c.columns, s.tables, routerId, loaded, p, raw, now).Some?
    ensures var e := Enrolment(routerId, p.serial, raw);
            var t' := Reenrol(c.hash, c.columns, s.tables, routerId, loaded, p, raw, now).value;
            Inv(c, file0, Move(s, id, Syncing(ForEnrolment(e, loaded.overlayIp)))
                            .(tables := t', log := s.log + [e]))
  {
    assert HasIp(s.tables.routers[routerId], PoolOf(c)[routerId]);
    var t' := Reenrol(c.hash, c.columns, s.tables, routerId, loaded, p, raw, now).value;
    ReenrolOk(c, s.tables, s.log, routerId, loaded, p, raw, now);
    CommittedInv(c, file0, s, id, t', Enrolment(routerId, p.serial, raw), loaded.overlayIp);
  }

  lemma CommitReenrolInv(c: Settings, file0: Option<string>, s: State, id: nat, raw: string, now: Time)
    requires Inv(c, file0, s) && Enabled(s, Commit(id, raw, now)) && s.requests[id].Found?
    ensures Inv(c, file0, Apply(c, s, Commit(id, raw, now)))
  {
    hide Reenrol, Minted;
    var phase := s.requests[id];
    assert PhaseOk(c, file0, s.tables.routers, s.log, phase);
    if Reenrol(c.hash, c.columns, s.tables, phase.routerId, phase.loaded, phase.payload, raw, now).Some? {
      ReenrolCommits(c, file0, s, id, phase.routerId, phase.loaded, phase.payload, raw, now);
    }
    MoveInv(c, file0, s, id, Done(Rejected(500)));
  }

  lemma CommittedPhase(rows: seq<RouterRow>, log: seq<Enrolment>, e: Enrolment, ip: Option<Address>)
    requires e.routerId < |rows| && rows[e.routerId].serial == e.serial
    requires ip.Some? && rows[e.routerId].overlayIp == ip
    ensures JobOk(rows, log + [e], ForEnrolment(e, ip))
  {
    assert (log + [e])[|log|] == e;
  }

  // ----- every step -----------------------------------------------------------------

  lemma TablesInv(c: Settings, file0: Option<string>, s: State, s': State)
    requires Inv(c, file0, s)
    requires SameIdentities(s.tables.routers, s'.tables.routers) && s'.tables.tokens == s.tables.tokens
    requires s'.log == s.log && s'.requests == s.requests && s'.file == s.file
    ensures Inv(c, file0, s')
  {
    SameIdentitiesKeep(c, s.tables.routers, s'.tables.routers);
    forall id | 0 <= id < |s'.tables.routers| ensures HasEntry(s.log, id) {
    }
    RequestsStayOk(c, file0, s.tables.routers, s.log, s'.tables.routers, s'.log, s.requests);
  }

  lemma ReplaceInv(c: Settings, file0: Option<string>, s: State, id: nat)
    requires Deployed(c) && Inv(c, file0, s) && Enabled(s, Replace(id))
    ensures Inv(c, file0, Apply(c, s, Replace(id)))
  {
    var phase := s.requests[id];
    AdvanceOk(c, file0, s, phase);
    MoveInv(c, file0, s, id, Advance(c, s, phase));
    SyncIsIdempotent(c.conf, file0.value, phase.peers, []);
  }

  lemma AdvanceInv(c: Settings, file0: Option<string>, s: State, id: nat)
    requires Inv(c, file0, s) && id in s.requests
    ensures Inv(c, file0, Move(s, id, Advance(c, s, s.requests[id])))
  {
    if s.requests[id].Charged? {
      FindTokenOk(c, file0, s, s.requests[id]);
    } else {
      AdvanceOk(c, file0, s, s.requests[id]);
    }
    MoveInv(c, file0, s, id, Advance(c, s, s.requests[id]));
  }

  lemma BeginInv(c: Settings, file0: Option<string>, s: State, id: nat, now: Time, sourceIp: string,
                 secret: Option<string>, p: Payload)
    requires Inv(c, file0, s) && Enabled(s, Begin(id, now, sourceIp, secret, p))
    ensures Inv(c, file0, Apply(c, s, Begin(id, now, sourceIp, secret, p)))
  {
    GatesOk(c, file0, s, now, sourceIp, secret, p);
    MoveInv(c, file0, s, id, Gates(c, s.buckets, now, sourceIp, secret, p).1);
  }

  lemma TouchKeepsIdentities(t: Tables, routerId: nat, now: Time)
    ensures SameIdentities(t.routers, Touched(t, routerId, now).routers) && Touched(t, routerId, now).tokens == t.tokens
  {
  }

  lemma PostInv(c: Settings, file0: Option<string>, s: State, id: nat, now: Time, sourceIp: string,
                authorization: Option<string>)
    requires Inv(c, file0, s) && Enabled(s, Post(id, now, sourceIp, authorization))
    ensures Inv(c, file0, Apply(c, s, Post(id, now, sourceIp, authorization)))
  {
    hide Inv, ExtractBearer, Check;
    MoveInv(c, file0, s, id, Arrive(s.buckets, now, sourceIp, authorization, s.steps).1);
    var (m', phase) := Arrive(s.buckets, now, sourceIp, authorization, s.steps);
    LimiterInv(c, file0, Move(s, id, phase), m', now);
  }

  lemma ChargeRouterInv(c: Settings, file0: Option<string>, s: State, id: nat, now: Time)
    requires Inv(c, file0, s) && Enabled(s, ChargeRouter(id, now))
    ensures Inv(c, file0, Apply(c, s, ChargeRouter(id, now)))
  {
    hide Inv, Check;
    InvPhase(c, file0, s, id);
    var (m', phase) := Limit(s.buckets, now, s.requests[id].beat, s.steps);
    MoveInv(c, file0, s, id, phase);
    LimiterInv(c, file0, Move(s, id, phase), m', now);
  }

  lemma LimiterInv(c: Settings, file0: Option<string>, s: State, m: Buckets, now: Time)
    requires Inv(c, file0, s)
    ensures Inv(c, file0, s.(buckets := m, now := now))
  {
  }

  lemma TouchInv(c: Settings, file0: Option<string>, s: State, id: nat, now: Time)
    requires Inv(c, file0, s) && Enabled(s, Touch(id, now))
    ensures Inv(c, file0, Apply(c, s, Touch(id, now)))
  {
    hide Inv, Touched, SameIdentities;
    var s' := Move(s, id, Advance(c, s, s.requests[id]));
    AdvanceInv(c, file0, s, id);
    TouchKeepsIdentities(s.tables, s.requests[id].beat.routerId, now);
    TablesInv(c, file0, s', s'.(tables := Touched(s.tables, s.requests[id].beat.routerId, now)));
  }

  lemma StepInv(c: Settings, file0: Option<string>, s: State, step: Step)
    requires Deployed(c) && Inv(c, file0, s) && Enabled(s, step)
    ensures Inv(c, file0, Apply(c, s, step))
  {
    hide Inv, Gates, CommitPhase, Arrive, Limit, Touched, Minted;
    match step
    case Begin(id, now, sourceIp, secret, p) => BeginInv(c, file0, s, id, now, sourceIp, secret, p);
    case Commit(id, raw, now) =>
      if s.requests[id].Allocated? {
        CommitNewInv(c, file0, s, id, raw, now);
      } else {
        CommitReenrolInv(c, file0, s, id, raw, now);
      }
    case StartSync(id) => MoveInv(c, file0, s, id, Syncing(Manual));
    case Replace(id) => ReplaceInv(c, file0, s, id);
    case Fail(id) => MoveInv(c, file0, s, id, Done(Rejected(500)));
    case Helper(id, ok) =>
      AdvanceInv(c, file0, s, id);
      MoveInv(c, file0, s, id, Done(Rejected(500)));
    case SetStatus(routerId, status) => TablesInv(c, file0, s, Apply(c, s, step));
    case Post(id, now, sourceIp, authorization) => PostInv(c, file0, s, id, now, sourceIp, authorization);
    case FindToken(id) => AdvanceInv(c, file0, s, id);
    case ChargeRouter(id, now) => ChargeRouterInv(c, file0, s, id, now);
    case ReadStatus(id) => AdvanceInv(c, file0, s, id);
    case Touch(id, now) => TouchInv(c, file0, s, id, now);
    case Lookup(id) => AdvanceInv(c, file0, s, id);
    case AllocateIp(id) => AdvanceInv(c, file0, s, id);
    case Fetch(id) => AdvanceInv(c, file0, s, id);
    case ReadBlock(id) => AdvanceInv(c, file0, s, id);
  }

  /** Every state of every run satisfies the invariant. */
  lemma {:induction false} RunInv(c: Settings, file0: Option<string>, run: seq<Step>)
    requires Deployed(c) && IsRun(c, file0, run)
    ensures Inv(c, file0, Exec(c, file0, run).value)
    decreases |run|
  {
    if run == [] {
      InitInv(c, file0);
    } else {
      RunInv(c, file0, run[..|run| - 1]);
      StepInv(c, file0, Exec(c, file0, run[..|run| - 1]).value, run[|run| - 1]);
    }
  }
}

/** Status over whole runs: only an administrator changes it, and what is not active is not in
    the configuration. */
module StatusHistory {
  import opened Wrappers
  import opened Inet
  import opened RateLimit
  import opened Database
  import opened WgConfig
  import opened WgParse
  import opened WgNames
  import opened ControlPlane
  import opened Invariant
  import opened AllocationHistory
  import opened FileHistory
  import Peers

  lemma CommitKeepsStatus(c: Settings, s: State, phase: Phase, raw: string, now: Time, r: nat)
    requires phase.Allocated? || phase.Found?
    requires r < |s.tables.routers|
    ensures var t' := CommitPhase(c, s, phase, raw, now).0;
            r < |t'.routers| && t'.routers[r].status == s.tables.routers[r].status
  {
  }

  /** A step changes the status of a router only when it is the administrator's step for it. */
  lemma StepStatus(c: Settings, s: State, step: Step, r: nat)
    requires Enabled(s, step) && r < |s.tables.routers|
    ensures var rows' := Apply(c, s, step).tables.routers;
            && r < |rows'|
            && (rows'[r].status == s.tables.routers[r].status || step == SetStatus(r, rows'[r].status))
  {
    match step
    case Commit(id, raw, now) => CommitKeepsStatus(c, s, s.requests[id], raw, now, r);
    case _ =>
  }

  /** An administrator's step sets the status of its router and changes nothing else. */
  lemma SetStatusExactly(c: Settings, s: State, r: nat, status: Status)
    requires Enabled(s, SetStatus(r, status))
    ensures var s' := Apply(c, s, SetStatus(r, status));
            && |s'.tables.routers| == |s.tables.routers| && s'.tables.tokens == s.tables.tokens
            && s'.tables.routers[r].status == status
            && s'.tables.routers[r] == s.tables.routers[r].(status := s'.tables.routers[r].status)
            && (forall i :: 0 <= i < |s.tables.routers| && i != r ==> s'.tables.routers[i] == s.tables.routers[i])
            && s'.requests == s.requests && s'.log == s.log && s'.file == s.file && s'.buckets == s.buckets
  {
  }

  predicate HasStatus(c: Settings, file: Option<string>, run: seq<Step>, n: nat, r: nat, status: Status)
    requires IsRun(c, file, run) && n <= |run|
  {
    var rows := StateAt(c, file, run, n).tables.routers;
    r < |rows| && rows[r].status == status
  }

  lemma StatusStep(c: Settings, file: Option<string>, run: seq<Step>, n: nat, r: nat, before: Status)
    returns (after: Status)
    requires IsRun(c, file, run) && n < |run| && HasStatus(c, file, run, n, r, before)
    ensures HasStatus(c, file, run, n + 1, r, after)
    ensures after == before || run[n] == SetStatus(r, after)
  {
    NextState(c, file, run, n);
    StepStatus(c, StateAt(c, file, run, n), run[n], r);
    after := StateAt(c, file, run, n + 1).tables.routers[r].status;
  }

  /** The status of a router is the one it had before, or one that an administrator set since; an
      enrolment decides it only when it inserts the router. */
  lemma {:induction false} StatusFollowsAdmin(c: Settings, file: Option<string>, run: seq<Step>, r: nat,
                                              k: nat, n: nat, before: Status) returns (after: Status)
    requires IsRun(c, file, run) && k <= n <= |run| && HasStatus(c, file, run, k, r, before)
    ensures HasStatus(c, file, run, n, r, after)
    ensures after == before || exists j :: k <= j < n && run[j] == SetStatus(r, after)
    decreases n
  {
    hide Apply, Exec, HasStatus;
    if k == n {
      after := before;
    } else {
      var mid := StatusFollowsAdmin(c, file, run, r, k, n - 1, before);
      after := StatusStep(c, file, run, n - 1, r, mid);
    }
  }

  ghost predicate Isolated(c: Settings, file: Option<string>, run: seq<Step>, r: nat, k: nat, n: nat)
    requires IsRun(c, file, run) && n <= |run|
  {
    && k <= n
    && (exists status :: status != Active && HasStatus(c, file, run, k, r, status))
    && forall j :: k <= j < n ==> run[j] != SetStatus(r, Active)
  }

  lemma StaysInactive(c: Settings, file: Option<string>, run: seq<Step>, r: nat, k: nat, f: nat, n: nat)
    returns (status: Status)
    requires IsRun(c, file, run) && k <= f <= n <= |run| && Isolated(c, file, run, r, k, n)
    ensures status != Active && HasStatus(c, file, run, f, r, status)
  {
    var before :| before != Active && HasStatus(c, file, run, k, r, before);
    status := StatusFollowsAdmin(c, file, run, r, k, f, before);
  }

  lemma InactiveHasNoPeer(c: Settings, rows: seq<RouterRow>, r: nat)
    requires RoutersOk(c, rows) && r < |rows| && rows[r].status != Active
    requires PoolOf(c)[r] < 0x1_0000_0000
    ensures !Has(Peers.ActivePeers(rows), Dotted(PoolOf(c)[r]))
  {
    assert HasIp(rows[r], PoolOf(c)[r]);
    if Has(Peers.ActivePeers(rows), Dotted(PoolOf(c)[r])) {
      var i :| 0 <= i < |Peers.ActivePeers(rows)| && Peers.ActivePeers(rows)[i].overlayIp == Dotted(PoolOf(c)[r]);
      var row := Peers.PeerHasRow(rows, Peers.ActivePeers(rows)[i], PoolOf(c)[r]);
      Peers.SameAddressSameRow(rows, row, rows[r]);
    }
  }

  lemma InactiveNotFetched(c: Settings, file: Option<string>, run: seq<Step>, r: nat, f: nat, status: Status)
    requires Deployed(c) && IsRun(c, file, run) && f <= |run|
    requires status != Active && HasStatus(c, file, run, f, r, status)
    ensures r < |PoolOf(c)| && PoolOf(c)[r] < 0x1_0000_0000
    ensures !Has(PeersAt(c, file, run, f), Dotted(PoolOf(c)[r]))
  {
    StateInv(c, file, run, f);
    PoolIsAddresses(c, r);
    InactiveHasNoPeer(c, StateAt(c, file, run, f).tables.routers, r);
  }

  /** Status isolation. A router that is pending, quarantined or decommissioned, and that no
      administrator has made active since, is not among the peers of a configuration that were
      fetched after it got there, under whatever identity and key it enrols again. */
  lemma InactiveIsNeverRendered(c: Settings, file0: Option<string>, run: seq<Step>, r: nat, k: nat, n: nat)
    requires Deployed(c) && IsRun(c, file0, run) && n <= |run| && Isolated(c, file0, run, r, k, n)
    requires var from := StateAt(c, file0, run, n).fileFrom; from.Some? && k <= from.value
    ensures var s := StateAt(c, file0, run, n);
            var f := s.fileFrom.value;
            && f < n && r < |PoolOf(c)| && PoolOf(c)[r] < 0x1_0000_0000
            && RenderedFrom(c, file0, run, f, s.file)
            && !Has(PeersAt(c, file0, run, f), Dotted(PoolOf(c)[r]))
  {
    hide Exec, Apply, RenderedFrom, PeersAt, Dotted;
    LastWrite(c, file0, run, n);
    var f := StateAt(c, file0, run, n).fileFrom.value;
    var status := StaysInactive(c, file0, run, r, k, f, n);
    InactiveNotFetched(c, file0, run, r, f, status);
  }

  /** As a wg(8) reader reads the file, such a router is in it exactly when some rendered identity,
      read on its own, claims the address of the router; identities on one line never do. */
  lemma InactiveIsReadExactly(c: Settings, file0: Option<string>, run: seq<Step>, r: nat, k: nat, n: nat)
    requires Deployed(c) && IsRun(c, file0, run) && n <= |run| && Isolated(c, file0, run, r, k, n)
    requires var from := StateAt(c, file0, run, n).fileFrom; from.Some? && k <= from.value
    ensures var s := StateAt(c, file0, run, n);
            var f := s.fileFrom.value;
            && f < n && r < |PoolOf(c)| && PoolOf(c)[r] < 0x1_0000_0000 && s.file.Some?
            && var peers, a := PeersAt(c, file0, run, f), Dotted(PoolOf(c)[r]);
            && (Has(ParsePeers(s.file.value), a) <==> AnyClaims(false, peers, a))
            && (OneLineNames(peers) ==> !Has(ParsePeers(s.file.value), a))
  {
    hide Exec, Apply, PeersAt, Dotted, Rendered, Has, AnyClaims, InterfaceBlock, RoutersOk, Peers.ActivePeers;
    InactiveIsNeverRendered(c, file0, run, r, k, n);
    var f := StateAt(c, file0, run, n).fileFrom.value;
    var peers, a := PeersAt(c, file0, run, f), Dotted(PoolOf(c)[r]);
    DottedIsShort(PoolOf(c)[r]);
    FetchedArePlain(c, file0, run, f);
    ReaderOutputIsClean(c.conf, file0.value);
    ParsedHasExactly(c.conf, InterfaceBlock(c.conf, file0.value), peers, a);
    if OneLineNames(peers) {
      OneLineNamesClaimNothing(false, peers, a);
    }
  }

  lemma FetchedArePlain(c: Settings, file: Option<string>, run: seq<Step>, f: nat)
    requires Deployed(c) && IsRun(c, file, run) && f <= |run|
    ensures Plain(PeersAt(c, file, run, f))
  {
    hide Exec, Apply, RoutersOk, Peers.ActivePeers;
    StateInv(c, file, run, f);
    PeersArePlain(c, StateAt(c, file, run, f).tables.routers);
  }
}

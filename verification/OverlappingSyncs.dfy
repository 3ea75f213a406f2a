/** Syncs are not mutually exclusive, so the last writer need not be the last to have fetched. */
module OverlappingSyncs {
  import opened Wrappers
  import opened Inet
  import opened Database
  import opened WgConfig
  import opened ControlPlane
  import opened Invariant
  import opened AllocationHistory
  import opened AutoEnroll
  import opened StatusHistory
  import opened WgNames
  import Peers

  /** Start a sync, read the peers, read the interface block. */
  lemma StartsAndReads(c: Settings, file: Option<string>, run: seq<Step>, s: State, id: nat, block: string)
      returns (s': State)
    requires Exec(c, file, run) == Some(s) && id !in s.requests
    requires ReadInterfaceBlock(c.conf, s.file) == Success(block)
    ensures Exec(c, file, run + [StartSync(id)] + [Fetch(id)] + [ReadBlock(id)]) == Some(s')
    ensures id in s'.requests && s'.requests[id].Composed? && OnlyMoved(s, s', id, s'.requests[id])
    ensures s'.requests[id].job == Manual
    ensures s'.requests[id].peers == Peers.ActivePeers(s.tables.routers) && s'.requests[id].block == block
  {
    hide Peers.ActivePeers, ReadInterfaceBlock, Exec;
    OneMore(c, file, run, s, StartSync(id));
    var s1 := Apply(c, s, StartSync(id));
    OneMore(c, file, run + [StartSync(id)], s1, Fetch(id));
    var s2 := Apply(c, s1, Fetch(id));
    OneMore(c, file, run + [StartSync(id)] + [Fetch(id)], s2, ReadBlock(id));
    s' := Apply(c, s2, ReadBlock(id));
  }

  lemma Writes(c: Settings, file: Option<string>, run: seq<Step>, s: State, id: nat) returns (s': State)
    requires Exec(c, file, run) == Some(s) && id in s.requests && s.requests[id].Composed? && s.file.Some?
    ensures Exec(c, file, run + [Replace(id)]) == Some(s') 
    ensures s'.tables == s.tables && s'.requests == s.requests[id := Replaced(s.requests[id].job)]
    ensures s'.file == Some(Rendered(c.conf, s.requests[id].block, s.requests[id].peers))
  {
    hide Rendered, Exec;
    OneMore(c, file, run, s, Replace(id));
    s' := Apply(c, s, Replace(id));
  }

  lemma Activates(c: Settings, file: Option<string>, run: seq<Step>, s: State, r: nat) returns (s': State)
    requires Exec(c, file, run) == Some(s) && r < |s.tables.routers|
    ensures Exec(c, file, run + [SetStatus(r, Active)]) == Some(s') && s'.requests == s.requests && s'.file == s.file
    ensures s'.tables.routers == s.tables.routers[r := s.tables.routers[r].(status := Active)]
  {
    hide Exec;
    OneMore(c, file, run, s, SetStatus(r, Active));
    s' := Apply(c, s, SetStatus(r, Active));
  }

  /** Some peer has the overlay address of the router. */
  predicate HasStanza(peers: seq<PeerRow>, row: RouterRow) {
    row.overlayIp.Some? && Has(peers, Dotted(row.overlayIp.value))
  }

  lemma ActiveHasStanza(c: Settings, rows: seq<RouterRow>, r: nat)
    requires RoutersOk(c, rows) && r < |rows| && rows[r].status == Active
    ensures HasStanza(Peers.ActivePeers(rows), rows[r])
  {
    hide Peers.ActivePeers, UniqueRows;
    assert HasIp(rows[r], PoolOf(c)[r]) && HasKey(rows[r]);
    assert rows[r] in rows;
    var i := Peers.ExactlyOneStanza(rows, rows[r]);
  }

  lemma InactiveHasNoStanza(c: Settings, rows: seq<RouterRow>, r: nat)
    requires Deployed(c) && RoutersOk(c, rows) && r < |rows| && rows[r].status != Active
    ensures !HasStanza(Peers.ActivePeers(rows), rows[r])
  {
    hide Peers.ActivePeers, UniqueRows;
    assert HasIp(rows[r], PoolOf(c)[r]);
    PoolIsAddresses(c, r);
    InactiveHasNoPeer(c, rows, r);
  }

  /** From every reachable state that has a file, an inactive router and two requests to spare, two
      overlapping syncs can leave the file without the router although it was made active before
      the later of them fetched, and although both wrote their file. */
  lemma OlderSyncCanWriteLast(c: Settings, file: Option<string>, run: seq<Step>, s: State, r: nat, a: nat, b: nat)
      returns (later: seq<Step>, s': State)
    requires Deployed(c) && Exec(c, file, run) == Some(s)
    requires s.file.Some? && r < |s.tables.routers| && s.tables.routers[r].status != Active
    requires a != b && a !in s.requests && b !in s.requests
    ensures Exec(c, file, later) == Some(s') && r < |s'.tables.routers| && s'.file.Some?
    ensures a in s'.requests && s'.requests[a] == Replaced(Manual)
    ensures b in s'.requests && s'.requests[b] == Replaced(Manual)
    ensures HasStanza(Peers.ActivePeers(s'.tables.routers), s'.tables.routers[r])
    ensures exists peers :: s'.file == Some(Rendered(c.conf, InterfaceBlock(c.conf, s.file.value), peers))
                        && !HasStanza(peers, s'.tables.routers[r])
  {
    hide Apply, Exec, Peers.ActivePeers, Rendered, InterfaceBlock, HasStanza, RoutersOk, Inv;
    var block := InterfaceBlock(c.conf, s.file.value);
    var s1 := StartsAndReads(c, file, run, s, a, block);
    later := run + [StartSync(a)] + [Fetch(a)] + [ReadBlock(a)];
    var s2 := Activates(c, file, later, s1, r);
    later := later + [SetStatus(r, Active)];
    var s3 := StartsAndReads(c, file, later, s2, b, block);
    later := later + [StartSync(b)] + [Fetch(b)] + [ReadBlock(b)];
    var s4 := Writes(c, file, later, s3, b);
    later := later + [Replace(b)];
    s' := Writes(c, file, later, s4, a);
    later := later + [Replace(a)];
    RunRouters(c, file, run, s);
    RunRouters(c, file, later, s');
    InactiveHasNoStanza(c, s.tables.routers, r);
    ActiveHasStanza(c, s'.tables.routers, r);
    SameAddress(Peers.ActivePeers(s.tables.routers), s.tables.routers[r], s'.tables.routers[r]);
  }

  lemma SameAddress(peers: seq<PeerRow>, x: RouterRow, y: RouterRow)
    requires x.overlayIp == y.overlayIp
    ensures HasStanza(peers, x) <==> HasStanza(peers, y)
  {
  }
}

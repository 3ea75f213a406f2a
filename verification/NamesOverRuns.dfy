/** An identity with line breaks, enrolled like any other, in the file of a reachable run. */
module NamesOverRuns {
  import opened Wrappers
  import opened Inet
  import opened Database
  import opened WgConfig
  import opened WgParse
  import opened WgNames
  import opened WgFile
  import opened ControlPlane
  import opened Invariant
  import opened AllocationHistory
  import opened AutoEnroll
  import opened FileHistory
  import opened StatusHistory
  import KeyCodec
  import Peers

  /** A call that gets past the gates and re-enrols router r under this identity. */
  predicate Renames(c: Settings, s: State, call: Call, r: nat, identity: string) {
    && s.now <= call.now && |call.raw| >= PREFIX_LEN && !Minted(s.log, call.raw)
    && Gates(c, s.buckets, call.now, call.sourceIp, call.secret, call.payload).1 == Admitted(call.payload)
    && r < |s.tables.routers| && s.tables.routers[r].serial == call.payload.serial
    && c.columns.text(call.payload.serial)
    && Updatable(c, s.tables.routers, r, s.tables.routers[r], call.payload)
    && call.payload.identity == identity && call.fault == Smooth && call.helperOk
  }

  lemma RenamedRow(c: Settings, t: Tables, call: Call, r: nat)
    requires RoutersOk(c, t.routers) && r < |t.routers| && t.routers[r].serial == call.payload.serial
    requires c.columns.text(call.payload.serial) && Updatable(c, t.routers, r, t.routers[r], call.payload)
    ensures var (t', row) := Transact(c, t, call.payload, call.raw, call.at);
            var renamed := UpdatedRow(c.columns, t.routers[r], t.routers[r], call.payload, call.at);
            row.Some? && t'.routers == t.routers[r := renamed]
  {
    SerialFoundOnce(t.routers, r, call.payload.serial);
    ReenrolExactly(c, t, r, t.routers[r], call.payload, call.raw, call.at);
  }

  lemma ActiveIsPeer(c: Settings, rows: seq<RouterRow>, r: nat) returns (i: nat)
    requires RoutersOk(c, rows) && r < |rows| && rows[r].status == Active
    ensures i < |Peers.ActivePeers(rows)| && Peers.ActivePeers(rows)[i].identity == rows[r].identity
  {
    hide Peers.ActivePeers, UniqueRows;
    assert HasIp(rows[r], PoolOf(c)[r]) && HasKey(rows[r]);
    assert rows[r] in rows;
    i := Peers.ExactlyOneStanza(rows, rows[r]);
  }

  /** What the file reads as when an active router bears the name with line breaks. */
  lemma NameInFile(c: Settings, text: string, rows: seq<RouterRow>, r: nat, q: nat, key: string)
    requires Deployed(c) && RoutersOk(c, rows) && r < |rows| && q < |rows|
    requires rows[r].status == Active && rows[q].status != Active
    requires q < |PoolOf(c)| && PoolOf(c)[q] < 0x1_0000_0000
    requires |key| == 44 && KeyCodec.ValidatePublicKey(key).Success?
    requires rows[r].identity == MultiLineName(key, Dotted(PoolOf(c)[q]))
    ensures !Has(Peers.ActivePeers(rows), Dotted(PoolOf(c)[q]))
    ensures PeerRow("x", key, Dotted(PoolOf(c)[q])) in ParsePeers(Synced(c.conf, text, Peers.ActivePeers(rows)))
  {
    hide Dotted, Has, RoutersOk, Peers.ActivePeers, ParsePeers, Rendered, MultiLineName, InterfaceBlock;
    hide KeyCodec.ValidatePublicKey;
    var peers, a := Peers.ActivePeers(rows), Dotted(PoolOf(c)[q]);
    InactiveHasNoPeer(c, rows, q);
    var i := ActiveIsPeer(c, rows, r);
    KeyCodec.AcceptedKeyIsOneLine(key);
    DottedHasNo(PoolOf(c)[q], '\n');
    DottedHasNo(PoolOf(c)[q], '/');
    PeersArePlain(c, rows);
    ReaderOutputIsClean(c.conf, text);
    ParsedHasNamedPeer(c.conf, InterfaceBlock(c.conf, text), peers, i, key, a);
  }

  /** From every reachable state with a file, an active router r and an inactive router q, and for
      every key the check accepts, a re-enrolment of r under a name with line breaks, let through by
      every check, leads to a file that reads as having a peer with that key and the address of q,
      while q stays inactive and is not among the peers that were rendered. */
  lemma InactiveCanBeRead(c: Settings, file: Option<string>, run: seq<Step>, s: State, id: nat, call: Call,
                          r: nat, q: nat, key: string) returns (later: seq<Step>, s': State)
    requires Deployed(c) && Exec(c, file, run) == Some(s) && s.file.Some? && id !in s.requests
    requires r < |s.tables.routers| && s.tables.routers[r].status == Active
    requires q < |s.tables.routers| && s.tables.routers[q].status != Active
    requires q < |PoolOf(c)| && PoolOf(c)[q] < 0x1_0000_0000
    requires |key| == 44 && KeyCodec.ValidatePublicKey(key).Success?
    requires Renames(c, s, call, r, MultiLineName(key, Dotted(PoolOf(c)[q])))
    ensures Exec(c, file, later) == Some(s') && s'.file.Some?
    ensures q < |s'.tables.routers| && s'.tables.routers[q].status == s.tables.routers[q].status
    ensures id in s'.requests && s'.requests[id].Done? && s'.requests[id].response.Provision?
    ensures !Has(Peers.ActivePeers(s'.tables.routers), Dotted(PoolOf(c)[q]))
    ensures PeerRow("x", key, Dotted(PoolOf(c)[q])) in ParsePeers(s'.file.value)
  {
    hide Exec, Apply, Gates, Transact, Has, ParsePeers, Dotted, Peers.ActivePeers, MultiLineName, Synced;
    hide RoutersOk, Updatable, KeyCodec.ValidatePublicKey;
    var moved, t := HandlerIsARun(c, file, run, s, id, call);
    later, s' := moved, t;
    RunRouters(c, file, run, s);
    RunRouters(c, file, later, s');
    RenamedRow(c, s.tables, call, r);
    NameInFile(c, s.file.value, s'.tables.routers, r, q, key);
  }
}

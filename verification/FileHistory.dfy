/** What wg0.conf can hold after any interleaving of enrolments, syncs and failures. */
module FileHistory {
  import opened Wrappers
  import opened Inet
  import opened RateLimit
  import opened Database
  import opened WgConfig
  import opened ControlPlane
  import opened Invariant
  import opened AllocationHistory
  import opened Overlay
  import opened RouterTokens
  import opened WgParse
  import opened Verbatim
  import KeyCodec
  import Peers

  /** The active peers of the committed tables after the first k steps. */
  function PeersAt(c: Settings, file: Option<string>, run: seq<Step>, k: nat): seq<PeerRow>
    requires IsRun(c, file, run) && k <= |run|
  {
    Peers.ActivePeers(StateAt(c, file, run, k).tables.routers)
  }

  // ----- every in-flight sync holds the peers of one committed state ----------------

  /** Step k read these peers. */
  predicate FetchedAt(c: Settings, file: Option<string>, run: seq<Step>, n: nat, k: nat, peers: seq<PeerRow>)
    requires IsRun(c, file, run) && n <= |run|
  {
    k < n && run[k].Fetch? && peers == PeersAt(c, file, run, k)
  }

  predicate SyncOk(c: Settings, file: Option<string>, run: seq<Step>, n: nat, phase: Phase)
    requires IsRun(c, file, run) && n <= |run|
  {
    phase.Fetched? || phase.Composed? ==> FetchedAt(c, file, run, n, phase.fetchedAt, phase.peers)
  }

  predicate SyncsOk(c: Settings, file: Option<string>, run: seq<Step>, n: nat, requests: map<nat, Phase>)
    requires IsRun(c, file, run) && n <= |run|
  {
    forall id :: id in requests ==> SyncOk(c, file, run, n, requests[id])
  }

  /** The complete render of the initial interface block with the peers at step k. */
  predicate RenderedFrom(c: Settings, file0: Option<string>, run: seq<Step>, k: nat, file: Option<string>)
    requires IsRun(c, file0, run) && k <= |run|
  {
    file0.Some? && file == Some(Rendered(c.conf, InterfaceBlock(c.conf, file0.value), PeersAt(c, file0, run, k)))
  }

  /** The initial text, or the complete render that the fetch of step k leads to. */
  predicate FileFrom(c: Settings, file0: Option<string>, run: seq<Step>, n: nat, file: Option<string>,
                     from: Option<nat>)
    requires IsRun(c, file0, run) && n <= |run|
  {
    match from
    case None => file == file0
    case Some(k) => k < n && run[k].Fetch? && RenderedFrom(c, file0, run, k, file)
  }

  predicate History(c: Settings, file: Option<string>, run: seq<Step>, n: nat)
    requires IsRun(c, file, run) && n <= |run|
  {
    var s := StateAt(c, file, run, n);
    && s.steps == n
    && SyncsOk(c, file, run, n, s.requests)
    && FileFrom(c, file, run, n, s.file, s.fileFrom)
  }

  lemma SyncsStay(c: Settings, file: Option<string>, run: seq<Step>, n: nat, requests: map<nat, Phase>)
    requires IsRun(c, file, run) && n < |run| && SyncsOk(c, file, run, n, requests)
    ensures SyncsOk(c, file, run, n + 1, requests)
  {
    forall id | id in requests ensures SyncOk(c, file, run, n + 1, requests[id]) {
      assert SyncOk(c, file, run, n, requests[id]);
    }
  }

  lemma SyncsUpdate(c: Settings, file: Option<string>, run: seq<Step>, n: nat, requests: map<nat, Phase>,
                    id: nat, phase: Phase)
    requires IsRun(c, file, run) && n < |run| && SyncsOk(c, file, run, n, requests)
    requires SyncOk(c, file, run, n + 1, phase)
    ensures SyncsOk(c, file, run, n + 1, requests[id := phase])
  {
    SyncsStay(c, file, run, n, requests);
  }

  lemma AdvanceSync(c: Settings, file: Option<string>, run: seq<Step>, n: nat, phase: Phase)
    requires IsRun(c, file, run) && n < |run| && SyncOk(c, file, run, n, phase)
    requires StateAt(c, file, run, n).steps == n && (phase.Syncing? ==> run[n].Fetch?)
    ensures SyncOk(c, file, run, n + 1, Advance(c, StateAt(c, file, run, n), phase))
  {
    hide Exec, Apply, Peers.ActivePeers, Allocate, FindSerial, ReadInterfaceBlock, IndexedLookup;
  }

  lemma MovedOk(c: Settings, file: Option<string>, run: seq<Step>, n: nat)
    requires IsRun(c, file, run) && n < |run| && History(c, file, run, n)
    requires Enabled(StateAt(c, file, run, n), run[n])
    ensures var moved := Moved(c, StateAt(c, file, run, n), run[n]);
            moved.Some? ==> SyncOk(c, file, run, n + 1, moved.value.1)
  {
    var s, step := StateAt(c, file, run, n), run[n];
    var moved := Moved(c, s, step);
    if moved.Some? {
      var (id, phase) := moved.value;
      if id in s.requests {
        assert SyncOk(c, file, run, n, s.requests[id]);
        if phase == Advance(c, s, s.requests[id]) && (s.requests[id].Syncing? ==> step.Fetch?) {
          AdvanceSync(c, file, run, n, s.requests[id]);
        }
      }
    }
  }

  lemma ReplacedFile(c: Settings, file: Option<string>, run: seq<Step>, n: nat)
    requires Deployed(c) && IsRun(c, file, run) && n < |run| && History(c, file, run, n) && run[n].Replace?
    ensures var s' := StateAt(c, file, run, n + 1); FileFrom(c, file, run, n + 1, s'.file, s'.fileFrom)
  {
    NextState(c, file, run, n);
    StateInv(c, file, run, n);
    var s := StateAt(c, file, run, n);
    var phase := s.requests[run[n].id];
    assert PhaseOk(c, file, s.tables.routers, s.log, phase);
    assert SyncOk(c, file, run, n, phase);
  }

  lemma {:induction false} HistoryHolds(c: Settings, file: Option<string>, run: seq<Step>, n: nat)
    requires Deployed(c) && IsRun(c, file, run) && n <= |run|
    ensures History(c, file, run, n)
    decreases n
  {
    if n > 0 {
      HistoryHolds(c, file, run, n - 1);
      HistoryStep(c, file, run, n - 1);
    } else {
      assert run[..0] == [];
    }
  }

  lemma HistoryStep(c: Settings, file: Option<string>, run: seq<Step>, n: nat)
    requires Deployed(c) && IsRun(c, file, run) && n < |run| && History(c, file, run, n)
    ensures History(c, file, run, n + 1)
  {
    var s := StateAt(c, file, run, n);
    NextState(c, file, run, n);
    MovedOk(c, file, run, n);
    ApplyMoves(c, s, run[n]);
    SyncsStay(c, file, run, n, s.requests);
    if Moved(c, s, run[n]).Some? {
      var (id, phase) := Moved(c, s, run[n]).value;
      SyncsUpdate(c, file, run, n, s.requests, id, phase);
    }
    if run[n].Replace? {
      ReplacedFile(c, file, run, n);
    }
  }

  // ----- the theorems ---------------------------------------------------------------

  lemma InitialOrRendered(c: Settings, file0: Option<string>, run: seq<Step>, n: nat, file: Option<string>,
                          from: Option<nat>)
    requires IsRun(c, file0, run) && n <= |run| && FileFrom(c, file0, run, n, file, from)
    ensures file == file0 || exists k :: 0 <= k < n && RenderedFrom(c, file0, run, k, file)
  {
  }

  /** At every moment of every run the file is the initial text or one complete render of the
      original interface block with the active peers of some earlier committed state. */
  lemma FileIsInitialOrRendered(c: Settings, file0: Option<string>, run: seq<Step>, n: nat)
    requires Deployed(c) && IsRun(c, file0, run) && n <= |run|
    ensures var file := StateAt(c, file0, run, n).file;
            file == file0 || exists k :: 0 <= k < n && RenderedFrom(c, file0, run, k, file)
  {
    HistoryHolds(c, file0, run, n);
    var s := StateAt(c, file0, run, n);
    InitialOrRendered(c, file0, run, n, s.file, s.fileFrom);
  }

  /** No sync, whatever it interleaves with and wherever it fails, changes the interface block. */
  lemma BlockNeverChanges(c: Settings, file0: Option<string>, run: seq<Step>, n: nat)
    requires Deployed(c) && IsRun(c, file0, run) && n <= |run|
    ensures ReadInterfaceBlock(c.conf, StateAt(c, file0, run, n).file) == ReadInterfaceBlock(c.conf, file0)
  {
    StateInv(c, file0, run, n);
  }

  /** The steps that can change what a sync would render. */
  predicate ChangesPeers(step: Step) {
    step.Commit? || step.SetStatus?
  }

  lemma OtherStepsKeepPeers(c: Settings, s: State, step: Step)
    requires Enabled(s, step) && !ChangesPeers(step)
    ensures Peers.ActivePeers(Apply(c, s, step).tables.routers) == Peers.ActivePeers(s.tables.routers)
  {
    if step.Touch? {
      var r := s.requests[step.id].beat.routerId;
      TouchAlike(s.tables, r, step.now);
      Peers.AlikeGiveSamePeers(s.tables.routers, Touched(s.tables, r, step.now).routers);
    }
  }

  lemma TouchAlike(t: Tables, routerId: nat, now: Time)
    ensures Peers.Alike(t.routers, Touched(t, routerId, now).routers)
  {
  }

  lemma QuietStep(c: Settings, file: Option<string>, run: seq<Step>, n: nat)
    requires IsRun(c, file, run) && n < |run| && !ChangesPeers(run[n])
    ensures PeersAt(c, file, run, n + 1) == PeersAt(c, file, run, n)
  {
    NextState(c, file, run, n);
    OtherStepsKeepPeers(c, StateAt(c, file, run, n), run[n]);
  }

  /** A value that no step of a stretch changes is the same at both ends. */
  lemma {:induction false} Unchanging<T>(values: seq<T>, k: nat, n: nat)
    requires k <= n < |values|
    requires forall j :: k <= j < n ==> values[j] == values[j + 1]
    ensures values[k] == values[n]
  {
    if k < n {
      Unchanging(values, k, n - 1);
    }
  }

  lemma PeersStay(c: Settings, file: Option<string>, run: seq<Step>, k: nat, n: nat)
    requires IsRun(c, file, run) && k <= n <= |run|
    requires forall j :: k <= j < n ==> !ChangesPeers(run[j])
    ensures PeersAt(c, file, run, n) == PeersAt(c, file, run, k)
  {
    hide Apply, Exec, PeersAt;
    var values := seq(|run| + 1, j requires 0 <= j <= |run| => PeersAt(c, file, run, j));
    forall j | k <= j < n ensures values[j] == values[j + 1] {
      QuietStep(c, file, run, j);
    }
    Unchanging(values, k, n);
  }

  lemma RenderedAlike(c: Settings, file0: Option<string>, run: seq<Step>, k: nat, n: nat, file: Option<string>)
    requires IsRun(c, file0, run) && k <= |run| && n <= |run|
    requires PeersAt(c, file0, run, n) == PeersAt(c, file0, run, k) && RenderedFrom(c, file0, run, k, file)
    ensures RenderedFrom(c, file0, run, n, file)
  {
  }

  lemma LastWrite(c: Settings, file0: Option<string>, run: seq<Step>, n: nat)
    requires Deployed(c) && IsRun(c, file0, run) && n <= |run| && StateAt(c, file0, run, n).fileFrom.Some?
    ensures var s := StateAt(c, file0, run, n);
            && s.fileFrom.value < n && run[s.fileFrom.value].Fetch?
            && RenderedFrom(c, file0, run, s.fileFrom.value, s.file)
  {
    HistoryHolds(c, file0, run, n);
  }

  /** The file matches the database whenever the fetch behind the last write follows the last
      commit and the last status change. */
  lemma FileMatchesDatabase(c: Settings, file0: Option<string>, run: seq<Step>, n: nat)
    requires Deployed(c) && IsRun(c, file0, run) && n <= |run|
    requires var from := StateAt(c, file0, run, n).fileFrom;
             from.Some? && forall j :: from.value < j < n ==> !ChangesPeers(run[j])
    ensures RenderedFrom(c, file0, run, n, StateAt(c, file0, run, n).file)
  {
    hide Apply, Exec, Rendered, Peers.ActivePeers;
    LastWrite(c, file0, run, n);
    var s := StateAt(c, file0, run, n);
    PeersStay(c, file0, run, s.fileFrom.value, n);
    RenderedAlike(c, file0, run, s.fileFrom.value, n, s.file);
  }

  /** From the first write of a run on, the file starts with the hand-written part it had at the
      start of the run exactly when that part ends plainly. */
  lemma HandWrittenKeptExactly(c: Settings, file0: Option<string>, run: seq<Step>, n: nat)
    requires Deployed(c) && IsRun(c, file0, run) && n <= |run|
    requires StateAt(c, file0, run, n).fileFrom.Some?
    ensures var file := StateAt(c, file0, run, n).file;
            && file0.Some? && file.Some?
            && var kept := HandWritten(c.conf, file0.value);
            kept <= file.value <==> EndsPlainly(kept)
  {
    hide Exec, Apply, Rendered, HandWritten, EndsPlainly, Peers.ActivePeers, InterfaceBlock;
    LastWrite(c, file0, run, n);
    var k := StateAt(c, file0, run, n).fileFrom.value;
    KeptExactly(c.conf, file0.value, PeersAt(c, file0, run, k));
  }

  // ----- the file as wg(8) reads it -------------------------------------------------

  predicate OneLineNames(peers: seq<PeerRow>) {
    forall p :: p in peers ==> '\n' !in p.identity
  }

  predicate Plain(peers: seq<PeerRow>) {
    forall p :: p in peers ==> PlainFields(p)
  }

  lemma PeersArePlain(c: Settings, rows: seq<RouterRow>)
    requires RoutersOk(c, rows)
    ensures Plain(Peers.ActivePeers(rows))
  {
    var peers := Peers.ActivePeers(rows);
    forall p | p in peers ensures PlainFields(p) {
      var i :| 0 <= i < |peers| && peers[i] == p;
      Peers.SelectedIsListed(rows, i);
      var row := Peers.SelectActive(rows)[i];
      var r :| 0 <= r < |rows| && rows[r] == row;
      RowIsPlain(c, rows, r);
    }
  }

  lemma RowIsPlain(c: Settings, rows: seq<RouterRow>, r: nat)
    requires RoutersOk(c, rows) && r < |rows| && Peers.Listed(rows[r])
    ensures PlainFields(Peers.PeerOf(rows[r]))
  {
    assert HasKey(rows[r]);
    KeyCodec.AcceptedKeyIsOneLine(rows[r].publicKey.value);
    DottedHasNo(rows[r].overlayIp.value, '\n');
    DottedHasNo(rows[r].overlayIp.value, '/');
  }

  /** Reading the written file with a wg(8) section reader gives back the very peers of the
      database state it was rendered from, exactly when no identity among them has a line
      break. Keys and addresses need no such proviso: the checks at enrolment and the allocator
      keep them on one line. */
  lemma FileParsesBackExactly(c: Settings, file0: Option<string>, run: seq<Step>, n: nat)
    requires Deployed(c) && IsRun(c, file0, run) && n <= |run|
    requires StateAt(c, file0, run, n).fileFrom.Some?
    ensures var s := StateAt(c, file0, run, n);
            && s.fileFrom.value < n && s.file.Some?
            && var peers := PeersAt(c, file0, run, s.fileFrom.value);
            ParsePeers(s.file.value) == peers <==> OneLineNames(peers)
  {
    HistoryHolds(c, file0, run, n);
    var k := StateAt(c, file0, run, n).fileFrom.value;
    StateInv(c, file0, run, k);
    PeersArePlain(c, StateAt(c, file0, run, k).tables.routers);
    ReaderOutputIsClean(c.conf, file0.value);
    ParseBackExactly(c.conf, InterfaceBlock(c.conf, file0.value), PeersAt(c, file0, run, k));
  }

  /** What a wg(8) reader finds in the written file, told from the router table alone: with the
      identities of active routers on one line, a peer exactly for each router that was active and
      had a key and an address when the last writer fetched, with its own identity, key and
      address. */
  lemma FileShowsRoutersExactly(c: Settings, file0: Option<string>, run: seq<Step>, n: nat, p: PeerRow)
    requires Deployed(c) && IsRun(c, file0, run) && n <= |run|
    requires var from := StateAt(c, file0, run, n).fileFrom;
             && from.Some? && from.value <= n
             && var rows := StateAt(c, file0, run, from.value).tables.routers;
             forall r :: 0 <= r < |rows| && rows[r].status == Active ==> '\n' !in rows[r].identity
    ensures var s := StateAt(c, file0, run, n);
            && s.file.Some?
            && var rows := StateAt(c, file0, run, s.fileFrom.value).tables.routers;
            p in ParsePeers(s.file.value) <==>
              exists r :: 0 <= r < |rows|
                && rows[r].status == Active && rows[r].publicKey == Some(p.publicKey) && rows[r].identity == p.identity
                && rows[r].overlayIp.Some? && Dotted(rows[r].overlayIp.value) == p.overlayIp
  {
    hide Exec, Apply, ParsePeers, Peers.ActivePeers, Dotted, Deployed;
    FileParsesBackExactly(c, file0, run, n);
    var s := StateAt(c, file0, run, n);
    var rows := StateAt(c, file0, run, s.fileFrom.value).tables.routers;
    forall q | q in Peers.ActivePeers(rows) ensures '\n' !in q.identity {
      Peers.ActivePeersExactly(rows, q);
      var r :| 0 <= r < |rows| && Peers.Shows(q, rows[r]);
    }
    Peers.ActivePeersExactly(rows, p);
    assert forall r :: 0 <= r < |rows| ==> (Peers.Shows(p, rows[r]) <==>
      && rows[r].status == Active && rows[r].publicKey == Some(p.publicKey) && rows[r].identity == p.identity
      && rows[r].overlayIp.Some? && Dotted(rows[r].overlayIp.value) == p.overlayIp);
  }

  lemma BothPlain(a: seq<PeerRow>, b: seq<PeerRow>)
    requires Plain(a) && Plain(b) && OneLineNames(a) && OneLineNames(b)
    ensures forall p :: p in a + b ==> '\n' !in p.identity && PlainFields(p)
  {
  }

  /** Syncs that overlap can leave an old file: it is current exactly when the peers that the last
      writer fetched are the peers of the database now. */
  lemma FileIsCurrentExactly(c: Settings, file0: Option<string>, run: seq<Step>, n: nat)
    requires Deployed(c) && IsRun(c, file0, run) && n <= |run|
    requires StateAt(c, file0, run, n).fileFrom.Some? && file0.Some?
    requires OneLineNames(PeersAt(c, file0, run, n))
    requires var k := StateAt(c, file0, run, n).fileFrom.value; k <= n && OneLineNames(PeersAt(c, file0, run, k))
    ensures var s := StateAt(c, file0, run, n);
            RenderedFrom(c, file0, run, n, s.file) <==>
            PeersAt(c, file0, run, s.fileFrom.value) == PeersAt(c, file0, run, n)
  {
    HistoryHolds(c, file0, run, n);
    var s := StateAt(c, file0, run, n);
    var k := s.fileFrom.value;
    StateInv(c, file0, run, k);
    StateInv(c, file0, run, n);
    PeersArePlain(c, StateAt(c, file0, run, k).tables.routers);
    PeersArePlain(c, s.tables.routers);
    ReaderOutputIsClean(c.conf, file0.value);
    var fetched, current := PeersAt(c, file0, run, k), PeersAt(c, file0, run, n);
    BothPlain(fetched, current);
    var block := InterfaceBlock(c.conf, file0.value);
    if Rendered(c.conf, block, fetched) == Rendered(c.conf, block, current) {
      RenderedInjective(c.conf, block, fetched, current);
    }
  }
}

/** What the answer to an enrolment means, over whole runs. */
module AnswerHistory {
  import opened Wrappers
  import opened Inet
  import opened Overlay
  import opened RateLimit
  import opened RequestChecks
  import opened Database
  import opened RouterTokens
  import opened WgConfig
  import opened ControlPlane
  import opened Invariant
  import opened AllocationHistory
  import opened FileHistory
  import opened LimiterHistory
  import opened RequestHistory
  import Peers

  // ----- which step leads to a phase ------------------------------------------------

  lemma ProvisionedBy(c: Settings, s: State, step: Step, id: nat, e: Enrolment, ip: Option<Address>)
    requires Enabled(s, step) && Moved(c, s, step) == Some((id, Done(Provision(e, ip))))
    ensures step == Helper(id, true) && s.requests[id] == Replaced(ForEnrolment(e, ip))
  {
    hide Gates, CommitPhase, Arrive, Limit, Peers.ActivePeers, Allocate, FindSerial, IndexedLookup, ReadInterfaceBlock;
    match step
    case Begin(_, now, sourceIp, secret, p) => GatesEnd(c, s.buckets, now, sourceIp, secret, p);
    case Commit(j, raw, now) => CommitEnd(c, s, s.requests[j], raw, now);
    case Post(_, now, sourceIp, authorization) => ArriveVerdict(s.buckets, now, sourceIp, authorization, s.steps);
    case ChargeRouter(j, now) => LimitVerdict(s.buckets, now, s.requests[j].beat, s.steps);
    case _ =>
  }

  lemma ReplacedBy(c: Settings, s: State, step: Step, id: nat, job: Job)
    requires Enabled(s, step) && Moved(c, s, step) == Some((id, Replaced(job)))
    ensures step == Replace(id) && s.file.Some? && s.requests[id].Composed? && s.requests[id].job == job
  {
    hide Gates, CommitPhase, Arrive, Limit, Peers.ActivePeers, Allocate, FindSerial, IndexedLookup, ReadInterfaceBlock;
    match step
    case Begin(_, now, sourceIp, secret, p) => GatesEnd(c, s.buckets, now, sourceIp, secret, p);
    case Commit(j, raw, now) => CommitEnd(c, s, s.requests[j], raw, now);
    case Post(_, now, sourceIp, authorization) => ArriveVerdict(s.buckets, now, sourceIp, authorization, s.steps);
    case ChargeRouter(j, now) => LimitVerdict(s.buckets, now, s.requests[j].beat, s.steps);
    case _ =>
  }

  lemma ComposedBy(c: Settings, s: State, step: Step, id: nat, phase: Phase)
    requires Enabled(s, step) && Moved(c, s, step) == Some((id, phase)) && phase.Composed?
    ensures step == ReadBlock(id) && s.requests[id] == Fetched(phase.job, phase.peers, phase.fetchedAt)
  {
    hide Gates, CommitPhase, Arrive, Limit, Peers.ActivePeers, Allocate, FindSerial, IndexedLookup, ReadInterfaceBlock;
    match step
    case Begin(_, now, sourceIp, secret, p) => GatesEnd(c, s.buckets, now, sourceIp, secret, p);
    case Commit(j, raw, now) => CommitEnd(c, s, s.requests[j], raw, now);
    case Post(_, now, sourceIp, authorization) => ArriveVerdict(s.buckets, now, sourceIp, authorization, s.steps);
    case ChargeRouter(j, now) => LimitVerdict(s.buckets, now, s.requests[j].beat, s.steps);
    case _ =>
  }

  lemma FetchedBy(c: Settings, s: State, step: Step, id: nat, phase: Phase)
    requires Enabled(s, step) && Moved(c, s, step) == Some((id, phase)) && phase.Fetched?
    ensures step == Fetch(id) && s.requests[id] == Syncing(phase.job) && phase.fetchedAt == s.steps
    ensures phase.peers == Peers.ActivePeers(s.tables.routers)
  {
    hide Gates, CommitPhase, Arrive, Limit, Peers.ActivePeers, Allocate, FindSerial, IndexedLookup, ReadInterfaceBlock;
    match step
    case Begin(_, now, sourceIp, secret, p) => GatesEnd(c, s.buckets, now, sourceIp, secret, p);
    case Commit(j, raw, now) => CommitEnd(c, s, s.requests[j], raw, now);
    case Post(_, now, sourceIp, authorization) => ArriveVerdict(s.buckets, now, sourceIp, authorization, s.steps);
    case ChargeRouter(j, now) => LimitVerdict(s.buckets, now, s.requests[j].beat, s.steps);
    case _ =>
  }

  lemma SyncingBy(c: Settings, s: State, step: Step, id: nat, e: Enrolment, ip: Option<Address>)
    requires Enabled(s, step) && Moved(c, s, step) == Some((id, Syncing(ForEnrolment(e, ip))))
    ensures step.Commit? && step.id == id && step.raw == e.raw
    ensures Apply(c, s, step).log == s.log + [e]
  {
    hide Gates, Arrive, Limit, Peers.ActivePeers, Allocate, FindSerial, IndexedLookup, ReadInterfaceBlock;
    hide InsertRouter, Reenrol;
    match step
    case Begin(_, now, sourceIp, secret, p) => GatesEnd(c, s.buckets, now, sourceIp, secret, p);
    case Post(_, now, sourceIp, authorization) => ArriveVerdict(s.buckets, now, sourceIp, authorization, s.steps);
    case ChargeRouter(j, now) => LimitVerdict(s.buckets, now, s.requests[j].beat, s.steps);
    case _ =>
  }

  // ----- the steps behind an answer -------------------------------------------------

  /** The file that the sync of an enrolment wrote. */
  lemma WrittenBehind(c: Settings, file0: Option<string>, run: seq<Step>, w: nat, id: nat)
    requires Deployed(c) && IsRun(c, file0, run) && w < |run| && run[w] == Replace(id)
    requires var s := StateAt(c, file0, run, w); id in s.requests && s.requests[id].Composed? && s.file.Some?
    ensures var f := StateAt(c, file0, run, w).requests[id].fetchedAt;
            f < w && RenderedFrom(c, file0, run, f, StateAt(c, file0, run, w + 1).file)
  {
    hide Exec;
    HistoryHolds(c, file0, run, w);
    NextState(c, file0, run, w);
    StateInv(c, file0, run, w);
    InvPhase(c, file0, StateAt(c, file0, run, w), id);
    var phase := StateAt(c, file0, run, w).requests[id];
    assert SyncOk(c, file0, run, w, phase);
  }

  lemma FetchBehind(c: Settings, file0: Option<string>, run: seq<Step>, w: nat, id: nat) returns (f: nat)
    requires IsRun(c, file0, run) && w <= |run|
    requires var s := StateAt(c, file0, run, w); id in s.requests && s.requests[id].Composed?
    ensures var phase := StateAt(c, file0, run, w).requests[id];
            && f < w && run[f] == Fetch(id) && f == phase.fetchedAt
            && Stands(c, file0, run, f, id, Syncing(phase.job))
  {
    hide Exec, Apply, Moved;
    var phase := StateAt(c, file0, run, w).requests[id];
    var b := Origin(c, file0, run, w, id);
    ComposedBy(c, StateAt(c, file0, run, b), run[b], id, phase);
    f := Origin(c, file0, run, b, id);
    FetchedBy(c, StateAt(c, file0, run, f), run[f], id, StateAt(c, file0, run, b).requests[id]);
    StepsCount(c, file0, run, f);
  }

  lemma CommitBehind(c: Settings, file0: Option<string>, run: seq<Step>, f: nat, id: nat, e: Enrolment,
                     ip: Option<Address>) returns (j: nat)
    requires IsRun(c, file0, run) && f <= |run| && Stands(c, file0, run, f, id, Syncing(ForEnrolment(e, ip)))
    ensures j < f && run[j].Commit? && run[j].id == id && run[j].raw == e.raw
    ensures StateAt(c, file0, run, j + 1).log == StateAt(c, file0, run, j).log + [e]
  {
    hide Exec, Apply, Moved;
    j := Origin(c, file0, run, f, id);
    NextState(c, file0, run, j);
    SyncingBy(c, StateAt(c, file0, run, j), run[j], id, e, ip);
  }

  lemma RowBehind(c: Settings, file0: Option<string>, run: seq<Step>, f: nat, id: nat, e: Enrolment,
                  ip: Option<Address>)
    requires Deployed(c) && IsRun(c, file0, run) && f <= |run|
    requires Stands(c, file0, run, f, id, Syncing(ForEnrolment(e, ip)))
    ensures var rows := StateAt(c, file0, run, f).tables.routers;
            && e.routerId < |rows| && rows[e.routerId].serial == e.serial && ip.Some?
            && rows[e.routerId].overlayIp == ip && rows[e.routerId].publicKey.Some?
  {
    hide Exec, Apply;
    StateInv(c, file0, run, f);
    InvPhase(c, file0, StateAt(c, file0, run, f), id);
    StateRouters(c, file0, run, f);
    assert HasKey(StateAt(c, file0, run, f).tables.routers[e.routerId]);
  }

  lemma StateRouters(c: Settings, file0: Option<string>, run: seq<Step>, f: nat)
    requires Deployed(c) && IsRun(c, file0, run) && f <= |run|
    ensures RoutersOk(c, StateAt(c, file0, run, f).tables.routers)
  {
    hide Exec, Apply;
    StateInv(c, file0, run, f);
  }

  /** The peer that the file of step f shows for this router. */
  predicate ShownAt(c: Settings, file0: Option<string>, run: seq<Step>, f: nat, r: nat)
    requires IsRun(c, file0, run) && f <= |run|
  {
    var rows := StateAt(c, file0, run, f).tables.routers;
    && r < |rows| && rows[r].publicKey.Some? && rows[r].overlayIp.Some?
    && PeerRow(rows[r].identity, rows[r].publicKey.value, Dotted(rows[r].overlayIp.value)) in PeersAt(c, file0, run, f)
  }

  lemma ActiveIsShown(c: Settings, file0: Option<string>, run: seq<Step>, f: nat, r: nat)
    requires IsRun(c, file0, run) && f <= |run|
    requires var rows := StateAt(c, file0, run, f).tables.routers;
             r < |rows| && rows[r].publicKey.Some? && rows[r].overlayIp.Some? && rows[r].status == Active
    ensures ShownAt(c, file0, run, f, r)
  {
    hide Exec, Apply, Dotted, Peers.ActivePeers;
    var rows := StateAt(c, file0, run, f).tables.routers;
    var p := PeerRow(rows[r].identity, rows[r].publicKey.value, Dotted(rows[r].overlayIp.value));
    Peers.ActivePeersExactly(rows, p);
    assert Peers.Shows(p, rows[r]);
  }

  /** A successful answer names the token that the request's own commit minted and the address of its
      router, and its own sync, which fetched after that commit, has written a whole file: one that
      has the router's peer, if the router was active at the fetch. */
  lemma ProvisionMeans(c: Settings, file0: Option<string>, run: seq<Step>, n: nat, id: nat, e: Enrolment,
                       ip: Option<Address>) returns (j: nat, f: nat, w: nat, h: nat)
    requires Deployed(c) && IsRun(c, file0, run) && n <= |run| && Stands(c, file0, run, n, id, Done(Provision(e, ip)))
    ensures j < f < w < h < n
    ensures run[j].Commit? && run[j].id == id && run[j].raw == e.raw
    ensures StateAt(c, file0, run, j + 1).log == StateAt(c, file0, run, j).log + [e]
    ensures run[f] == Fetch(id) && run[w] == Replace(id) && run[h] == Helper(id, true)
    ensures var rows := StateAt(c, file0, run, f).tables.routers;
            && e.routerId < |rows| && rows[e.routerId].serial == e.serial
            && ip.Some? && rows[e.routerId].overlayIp == ip
            && (rows[e.routerId].status == Active ==> ShownAt(c, file0, run, f, e.routerId))
    ensures RenderedFrom(c, file0, run, f, StateAt(c, file0, run, w + 1).file)
  {
    hide Exec, Apply, Moved, RenderedFrom, ShownAt;
    h := Origin(c, file0, run, n, id);
    ProvisionedBy(c, StateAt(c, file0, run, h), run[h], id, e, ip);
    w := Origin(c, file0, run, h, id);
    ReplacedBy(c, StateAt(c, file0, run, w), run[w], id, ForEnrolment(e, ip));
    f := FetchBehind(c, file0, run, w, id);
    WrittenBehind(c, file0, run, w, id);
    j := CommitBehind(c, file0, run, f, id, e, ip);
    RowBehind(c, file0, run, f, id, e, ip);
    if StateAt(c, file0, run, f).tables.routers[e.routerId].status == Active {
      ActiveIsShown(c, file0, run, f, e.routerId);
    }
  }
}

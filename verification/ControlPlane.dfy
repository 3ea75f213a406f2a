/** The control plane as one state machine: the committed tables, the configuration file, the rate
    limiter, and any number of enrolments, syncs and heartbeats in flight. Each step is one atomic
    action of one request, so a run is an interleaving of requests. */
module ControlPlane {
  import opened Wrappers
  import opened Inet
  import opened Overlay
  import opened RateLimit
  import opened RequestChecks
  import opened Database
  import opened ManagedText
  import opened WgConfig
  import opened RouterTokens
  import Peers
  import Telemetry
  import RateLimitTraces

  datatype Settings = Settings(
    network: Network, serverIp: Address,
    secretCurrent: string, secretPrevious: string, serverKey: string,
    conf: Layout, hash: Hash, columns: Columns)

  /** What the deployment supplies: a layout of the kind the printer uses, a hash without
      collisions. */
  ghost predicate Deployed(c: Settings) {
    ValidConf(c.conf) && Injective(c.hash) && c.network.Valid()
  }

  // ----- state ----------------------------------------------------------------------

  /** A committed enrolment; the log of these is the enrolment history. */
  datatype Enrolment = Enrolment(routerId: nat, serial: string, raw: string)

  /** Who a sync is run for. */
  datatype Job = Manual | ForEnrolment(enrolment: Enrolment, overlayIp: Option<Address>)

  /** A heartbeat on its way: its bearer, the router found for it, and the numbers of the steps
      that charged its source, looked up its token, charged its router and read its row. */
  datatype Beat = Beat(raw: string, chargedAt: nat, routerId: nat, knownAt: nat,
                       limitedAt: nat, limitTime: Time, readAt: nat)

  datatype Response =
    | Provision(enrolment: Enrolment, overlayIp: Option<Address>)
    | SyncReport
    | Heard(beat: Beat)
    | Rejected(code: nat)

  /** How far a request has got. `loaded` is the row as the lookup read it, `fetchedAt` the number
      of the step that read the peers. */
  datatype Phase =
    | Admitted(payload: Payload)
    | Found(payload: Payload, routerId: nat, loaded: RouterRow)
    | NotFound(payload: Payload)
    | Allocated(payload: Payload, ip: Address)
    | Syncing(job: Job)
    | Fetched(job: Job, peers: seq<PeerRow>, fetchedAt: nat)
    | Composed(job: Job, peers: seq<PeerRow>, fetchedAt: nat, block: string)
    | Replaced(job: Job)
    | Charged(beat: Beat)
    | Known(beat: Beat)
    | Limited(beat: Beat)
    | Cleared(beat: Beat)
    | Done(response: Response)

  /** `fileFrom` is the fetch behind the last write of the file, None before the first write. */
  datatype State = State(
    tables: Tables, log: seq<Enrolment>,
    file: Option<string>, fileFrom: Option<nat>,
    requests: map<nat, Phase>,
    buckets: Buckets, now: Time, steps: nat)

  function Init(file: Option<string>): State {
    State(Tables([], []), [], file, None, map[], map[], 0.0, 0)
  }

  // ----- steps ----------------------------------------------------------------------

  datatype Step =
    | Begin(id: nat, now: Time, sourceIp: string, secret: Option<string>, payload: Payload)
    | Lookup(id: nat)
    | AllocateIp(id: nat)
    | Commit(id: nat, raw: string, now: Time)
    | StartSync(id: nat)
    | Fetch(id: nat)
    | ReadBlock(id: nat)
    | Replace(id: nat)
    | Helper(id: nat, ok: bool)
    | Fail(id: nat)
    | SetStatus(routerId: nat, status: Status)
    | Post(id: nat, now: Time, sourceIp: string, authorization: Option<string>)
    | FindToken(id: nat)
    | ChargeRouter(id: nat, now: Time)
    | ReadStatus(id: nat)
    | Touch(id: nat, now: Time)

  predicate Minted(log: seq<Enrolment>, raw: string) {
    exists i :: 0 <= i < |log| && log[i].raw == raw
  }

  /** When a step can happen. Time does not run backwards and a minted token is a fresh one. */
  predicate Enabled(s: State, step: Step) {
    match step
    case Begin(id, now, _, _, _) => id !in s.requests && s.now <= now
    case Lookup(id) => id in s.requests && s.requests[id].Admitted?
    case AllocateIp(id) => id in s.requests && s.requests[id].NotFound?
    case Commit(id, raw, _) =>
      && id in s.requests && (s.requests[id].Allocated? || s.requests[id].Found?)
      && |raw| >= PREFIX_LEN && !Minted(s.log, raw)
    case StartSync(id) => id !in s.requests
    case Fetch(id) => id in s.requests && s.requests[id].Syncing?
    case ReadBlock(id) => id in s.requests && s.requests[id].Fetched?
    case Replace(id) => id in s.requests && s.requests[id].Composed?
    case Helper(id, _) => id in s.requests && s.requests[id].Replaced?
    case Fail(id) => id in s.requests && !s.requests[id].Done?
    case SetStatus(routerId, _) => routerId < |s.tables.routers|
    case Post(id, now, _, _) => id !in s.requests && s.now <= now
    case FindToken(id) => id in s.requests && s.requests[id].Charged?
    case ChargeRouter(id, now) => id in s.requests && s.requests[id].Known? && s.now <= now
    case ReadStatus(id) => id in s.requests && s.requests[id].Limited?
    case Touch(id, _) => id in s.requests && s.requests[id].Cleared?
  }

  /** The gates of an enrolment: payload schema, both rate limits, secret, server key. */
  function Gates(c: Settings, m: Buckets, now: Time, sourceIp: string, secret: Option<string>, p: Payload)
      : (Buckets, Phase) {
    if !ValidPayload(p) then (m, Done(Rejected(422)))
    else
      var (m', pass) := RateLimitTraces.CheckEnrol(m, RateLimitTraces.EnrolRequest(now, sourceIp, p.serial));
      if !pass then (m', Done(Rejected(429)))
      else if secret.None? || secret.value == "" then (m', Done(Rejected(401)))
      else if VerifySecret(c.hash, secret.value, c.secretCurrent, c.secretPrevious).None? then
        (m', Done(Rejected(401)))
      else if c.serverKey == "" then (m', Done(Rejected(500)))
      else (m', Admitted(p))
  }

  /** Commit or roll back. A first enrolment inserts the allocated address; a re-enrolment
      updates the row that the lookup found. A violated constraint rolls the transaction back,
      and nothing retries it. */
  function CommitPhase(c: Settings, s: State, phase: Phase, raw: string, now: Time): (Tables, seq<Enrolment>, Phase)
    requires phase.Allocated? || phase.Found?
  {
    var rolledBack := (s.tables, s.log, Done(Rejected(500)));
    match phase
    case Allocated(p, ip) =>
      (match InsertRouter(c.hash, c.columns, s.tables, p, ip, raw, now)
       case None => rolledBack
       case Some(t') =>
         var e := Enrolment(|s.tables.routers|, p.serial, raw);
         (t', s.log + [e], Syncing(ForEnrolment(e, Some(ip)))))
    case Found(p, id, loaded) =>
      if id >= |s.tables.routers| then rolledBack
      else
        match Reenrol(c.hash, c.columns, s.tables, id, loaded, p, raw, now)
        case None => rolledBack
        case Some(t') =>
          var e := Enrolment(id, p.serial, raw);
          (t', s.log + [e], Syncing(ForEnrolment(e, loaded.overlayIp)))
  }

  function Answer(job: Job): Response {
    match job
    case Manual => SyncReport
    case ForEnrolment(e, ip) => Provision(e, ip)
  }

  /** A POST arrives: its bearer is read and its source is charged. */
  function Arrive(m: Buckets, now: Time, sourceIp: string, authorization: Option<string>, at: nat)
      : (Buckets, Phase) {
    match ExtractBearer(authorization)
    case Failure(_) => (m, Done(Rejected(401)))
    case Success(raw) =>
      var (m', granted) := Check(m, Telemetry.SourceKey(sourceIp), now);
      (m', if granted then Charged(Beat(raw, at, 0, 0, 0, 0.0, 0)) else Done(Rejected(429)))
  }

  /** The router behind the token is charged. */
  function Limit(m: Buckets, now: Time, beat: Beat, at: nat): (Buckets, Phase) {
    var (m', granted) := Check(m, Telemetry.RouterKey(beat.routerId), now);
    (m', if granted then Limited(beat.(limitedAt := at, limitTime := now)) else Done(Rejected(429)))
  }

  /** Note that a router was heard from. */
  function Touched(t: Tables, routerId: nat, now: Time): Tables {
    if routerId >= |t.routers| then t
    else t.(routers := t.routers[routerId := t.routers[routerId].(lastSeenAt := Some(now))])
  }

  /** The phase a request moves to when the step concerns nothing but the request. */
  function Advance(c: Settings, s: State, phase: Phase): Phase {
    match phase
    case Admitted(p) =>
      if !c.columns.text(p.serial) then Done(Rejected(500))
      else
        (match FindSerial(s.tables.routers, p.serial)
         case Some(routerId) => Found(p, routerId, s.tables.routers[routerId])
         case None => NotFound(p))
    case NotFound(p) =>
      (match Allocate(c.network, c.serverIp, UsedIps(s.tables.routers))
       case Some(ip) => if ip < 0x1_0000_0000 then Allocated(p, ip) else Done(Rejected(500))
       case None => Done(Rejected(500)))
    case Syncing(job) => Fetched(job, Peers.ActivePeers(s.tables.routers), s.steps)
    case Fetched(job, peers, at) =>
      (match ReadInterfaceBlock(c.conf, s.file)
       case Success(block) => Composed(job, peers, at, block)
       case Failure(_) => Done(Rejected(500)))
    case Composed(job, _, _, _) => if s.file.Some? then Replaced(job) else Done(Rejected(500))
    case Replaced(job) => Done(Answer(job))
    case Charged(beat) =>
      (match IndexedLookup(c.hash, s.tables.tokens, beat.raw)
       case None => Done(Rejected(401))
       case Some(i) => Known(beat.(routerId := s.tables.tokens[i].routerId, knownAt := s.steps)))
    case Limited(beat) =>
      if beat.routerId >= |s.tables.routers| then Done(Rejected(401))
      else if s.tables.routers[beat.routerId].status in {Decommissioned, Quarantined} then Done(Rejected(403))
      else Cleared(beat.(readAt := s.steps))
    case Cleared(beat) => Done(Heard(beat))
    case _ => phase
  }

  function Move(s: State, id: nat, phase: Phase): State {
    s.(requests := s.requests[id := phase], steps := s.steps + 1)
  }

  function Apply(c: Settings, s: State, step: Step): State
    requires Enabled(s, step)
  {
    match step
    case Begin(id, now, sourceIp, secret, payload) =>
      var (m', phase) := Gates(c, s.buckets, now, sourceIp, secret, payload);
      Move(s, id, phase).(buckets := m', now := now)
    case Commit(id, raw, now) =>
      var (t', log', phase) := CommitPhase(c, s, s.requests[id], raw, now);
      Move(s, id, phase).(tables := t', log := log')
    case StartSync(id) => Move(s, id, Syncing(Manual))
    case Lookup(id) => Move(s, id, Advance(c, s, s.requests[id]))
    case AllocateIp(id) => Move(s, id, Advance(c, s, s.requests[id]))
    case Fetch(id) => Move(s, id, Advance(c, s, s.requests[id]))
    case ReadBlock(id) => Move(s, id, Advance(c, s, s.requests[id]))
    case Replace(id) =>
      var phase := s.requests[id];
      var s' := Move(s, id, Advance(c, s, phase));
      if s.file.None? then s'
      else s'.(file := Some(Rendered(c.conf, phase.block, phase.peers)), fileFrom := Some(phase.fetchedAt))
    case Helper(id, ok) =>
      Move(s, id, if ok then Advance(c, s, s.requests[id]) else Done(Rejected(500)))
    case Fail(id) => Move(s, id, Done(Rejected(500)))
    case SetStatus(routerId, status) =>
      var routers := s.tables.routers;
      s.(tables := s.tables.(routers := routers[routerId := routers[routerId].(status := status)]),
         steps := s.steps + 1)
    case Post(id, now, sourceIp, authorization) =>
      var (m', phase) := Arrive(s.buckets, now, sourceIp, authorization, s.steps);
      Move(s, id, phase).(buckets := m', now := now)
    case FindToken(id) => Move(s, id, Advance(c, s, s.requests[id]))
    case ChargeRouter(id, now) =>
      var (m', phase) := Limit(s.buckets, now, s.requests[id].beat, s.steps);
      Move(s, id, phase).(buckets := m', now := now)
    case ReadStatus(id) => Move(s, id, Advance(c, s, s.requests[id]))
    case Touch(id, now) =>
      Move(s, id, Advance(c, s, s.requests[id])).(tables := Touched(s.tables, s.requests[id].beat.routerId, now))
  }

  /** The phase that a step leaves its request in, if it concerns one. */
  function Moved(c: Settings, s: State, step: Step): Option<(nat, Phase)>
    requires Enabled(s, step)
  {
    match step
    case Begin(id, now, sourceIp, secret, payload) =>
      Some((id, Gates(c, s.buckets, now, sourceIp, secret, payload).1))
    case Commit(id, raw, now) => Some((id, CommitPhase(c, s, s.requests[id], raw, now).2))
    case StartSync(id) => Some((id, Syncing(Manual)))
    case Helper(id, ok) => Some((id, if ok then Advance(c, s, s.requests[id]) else Done(Rejected(500))))
    case Fail(id) => Some((id, Done(Rejected(500))))
    case SetStatus(_, _) => None
    case Post(id, now, sourceIp, authorization) =>
      Some((id, Arrive(s.buckets, now, sourceIp, authorization, s.steps).1))
    case ChargeRouter(id, now) => Some((id, Limit(s.buckets, now, s.requests[id].beat, s.steps).1))
    case FindToken(id) => Some((id, Advance(c, s, s.requests[id])))
    case ReadStatus(id) => Some((id, Advance(c, s, s.requests[id])))
    case Touch(id, _) => Some((id, Advance(c, s, s.requests[id])))
    case Lookup(id) => Some((id, Advance(c, s, s.requests[id])))
    case AllocateIp(id) => Some((id, Advance(c, s, s.requests[id])))
    case Fetch(id) => Some((id, Advance(c, s, s.requests[id])))
    case ReadBlock(id) => Some((id, Advance(c, s, s.requests[id])))
    case Replace(id) => Some((id, Advance(c, s, s.requests[id])))
  }

  lemma ApplyMoves(c: Settings, s: State, step: Step)
    requires Enabled(s, step)
    ensures var s' := Apply(c, s, step);
            && s'.steps == s.steps + 1
            && s'.requests == (match Moved(c, s, step)
                               case None => s.requests
                               case Some((id, phase)) => s.requests[id := phase])
            && (!step.Replace? ==> s'.file == s.file && s'.fileFrom == s.fileFrom)
  {
  }

  /** Where the gates and a commit leave a request. */
  lemma GatesEnd(c: Settings, m: Buckets, now: Time, sourceIp: string, secret: Option<string>, p: Payload)
    ensures var phase := Gates(c, m, now, sourceIp, secret, p).1;
            phase == Admitted(p) || (phase.Done? && phase.response.Rejected?)
  {
    hide ValidPayload, VerifySecret, RateLimitTraces.CheckEnrol;
  }

  lemma CommitEnd(c: Settings, s: State, phase: Phase, raw: string, now: Time)
    requires phase.Allocated? || phase.Found?
    ensures var after := CommitPhase(c, s, phase, raw, now).2; after == Done(Rejected(500)) || after.Syncing?
  {
  }

  // ----- runs -----------------------------------------------------------------------

  /** The state after a run, None when some step of it could not happen. */
  function Exec(c: Settings, file: Option<string>, run: seq<Step>): Option<State>
    decreases |run|
  {
    if run == [] then Some(Init(file))
    else
      var last := run[|run| - 1];
      match Exec(c, file, run[..|run| - 1])
      case None => None
      case Some(s) => if Enabled(s, last) then Some(Apply(c, s, last)) else None
  }

  predicate IsRun(c: Settings, file: Option<string>, run: seq<Step>) {
    Exec(c, file, run).Some?
  }

  /** The state after the first k steps of a run. */
  function StateAt(c: Settings, file: Option<string>, run: seq<Step>, k: nat): State
    requires IsRun(c, file, run) && k <= |run|
  {
    PrefixIsRun(c, file, run, k);
    Exec(c, file, run[..k]).value
  }

  lemma {:induction false} PrefixIsRun(c: Settings, file: Option<string>, run: seq<Step>, k: nat)
    requires IsRun(c, file, run) && k <= |run|
    ensures IsRun(c, file, run[..k])
    decreases |run|
  {
    if k == |run| {
      assert run[..k] == run;
    } else {
      PrefixIsRun(c, file, run[..|run| - 1], k);
      assert run[..|run| - 1][..k] == run[..k];
    }
  }

  /** One step further. */
  lemma NextState(c: Settings, file: Option<string>, run: seq<Step>, k: nat)
    requires IsRun(c, file, run) && k < |run|
    ensures var s := StateAt(c, file, run, k);
            Enabled(s, run[k]) && StateAt(c, file, run, k + 1) == Apply(c, s, run[k])
  {
    PrefixIsRun(c, file, run, k + 1);
    assert run[..k + 1][..k] == run[..k];
  }
}

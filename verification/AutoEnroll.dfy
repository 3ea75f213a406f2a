/** The enrolment handler in place, and the proof that running it alone is a run of the control
    plane: what the state machine splits into steps is what the handler does. */
module AutoEnroll {
  import opened Wrappers
  import opened Inet
  import opened Overlay
  import opened RateLimit
  import opened RequestChecks
  import opened Database
  import opened ManagedText
  import opened WgConfig
  import opened WgFile
  import opened ControlPlane
  import Peers
  import opened RateLimitTraces
  import LimiterHistory
  import Text

  // ----- the transaction ------------------------------------------------------------

  /** Look up the serial, update its row or insert a new one, mint the token, commit. */
  function Transact(c: Settings, t: Tables, p: Payload, raw: string, at: Time)
      : (Tables, Option<(nat, Option<Address>)>) {
    if !c.columns.text(p.serial) then (t, None)
    else
      match FindSerial(t.routers, p.serial)
      case Some(id) =>
        (match Reenrol(c.hash, c.columns, t, id, t.routers[id], p, raw, at)
         case None => (t, None)
         case Some(t') => (t', Some((id, t.routers[id].overlayIp))))
      case None =>
        match Allocate(c.network, c.serverIp, UsedIps(t.routers))
        case None => (t, None)
        case Some(ip) =>
          if ip >= 0x1_0000_0000 then (t, None)
          else
            match InsertRouter(c.hash, c.columns, t, p, ip, raw, at)
            case None => (t, None)
            case Some(t') => (t', Some((|t.routers|, Some(ip))))
  }

  /** The column of overlay addresses as the driver returns it. */
  function Column(rows: seq<RouterRow>): (r: seq<Option<InetValue>>)
    ensures |r| == |rows|
  {
    seq(|rows|, i requires 0 <= i < |rows| =>
      match rows[i].overlayIp
      case None => None
      case Some(a) => Some(Raw(Dotted(a) + "/" + Text.Decimal(32))))
  }

  lemma ColumnCoerces(rows: seq<RouterRow>)
    ensures Coerces(Column(rows)) && Addresses(Column(rows)) == UsedIps(rows)
  {
    forall i | 0 <= i < |rows| && rows[i].overlayIp.Some?
      ensures Column(rows)[i].Some? && CoerceIp(Column(rows)[i].value) == Success(rows[i].overlayIp.value)
    {
      StoredAddressCoerces(rows[i].overlayIp.value, 32);
    }
  }

  method EnrolRow(c: Settings, store: Store, p: Payload, raw: string, at: Time)
      returns (r: Option<(nat, Option<Address>)>)
    modifies store
    ensures (store.View(), r) == Transact(c, old(store.View()), p, raw, at)
  {
    if !c.columns.text(p.serial) {
      return None;
    }
    var existing := FindSerial(store.routers, p.serial);
    if existing.Some? {
      var id := existing.value;
      var loaded := store.routers[id];
      var committed := store.CommitReenrol(c.hash, c.columns, id, loaded, p, raw, at);
      return if committed then Some((id, loaded.overlayIp)) else None;
    }
    ColumnCoerces(store.routers);
    var free := AllocateOverlayIp(c.network, c.serverIp, Column(store.routers));
    if free.Failure? || free.value >= 0x1_0000_0000 {
      return None;
    }
    var id := |store.routers|;
    var committed := store.CommitNew(c.hash, c.columns, p, free.value, raw, at);
    return if committed then Some((id, Some(free.value))) else None;
  }

  // ----- the gates ------------------------------------------------------------------

  /** The text of a secret in use. */
  predicate SecretInUse(c: Settings, secret: Option<string>) {
    secret.Some? && secret.value != "" && (secret.value == c.secretCurrent || secret.value == c.secretPrevious)
  }

  lemma BothAreAsked(m: Buckets, now: Time, sourceIp: string, serial: string)
    ensures CheckEnrol(m, EnrolRequest(now, sourceIp, serial)).1 <==>
              LimiterHistory.Answered(m, IpKey(sourceIp), now) && LimiterHistory.Answered(m, SerialKey(serial), now)
  {
    hide TryConsume;
    LimiterHistory.KeysDiffer(sourceIp, serial, 0, 0);
  }

  /** A valid payload charges the buckets of its source and of its serial, whatever the verdict, and no
      other bucket; any other payload charges none. */
  lemma GatesChargeExactly(c: Settings, m: Buckets, now: Time, sourceIp: string, secret: Option<string>, p: Payload,
                           key: Key)
    ensures var m' := Gates(c, m, now, sourceIp, secret, p).0;
            if ValidPayload(p) && key in {IpKey(sourceIp), SerialKey(p.serial)}
            then key in m' && m'[key] == TryConsume(BucketFor(m, key, now), now).0
            else (key in m' <==> key in m) && (key in m ==> m'[key] == m[key])
  {
    hide ValidPayload, VerifySecret, TryConsume;
    LimiterHistory.KeysDiffer(sourceIp, p.serial, 0, 0);
  }

  /** The gates let through exactly the well-formed payloads that pass both limits, carry the text
      of a secret in use, and find the server's public key configured; and each refusal says which
      of these comes first to fail. */
  lemma GatesPassExactly(c: Settings, m: Buckets, now: Time, sourceIp: string, secret: Option<string>, p: Payload)
    requires Injective(c.hash)
    ensures var phase := Gates(c, m, now, sourceIp, secret, p).1;
            var pass := && LimiterHistory.Answered(m, IpKey(sourceIp), now)
                        && LimiterHistory.Answered(m, SerialKey(p.serial), now);
            && (phase == Admitted(p) <==> ValidPayload(p) && pass && SecretInUse(c, secret) && c.serverKey != "")
            && (phase == Done(Rejected(422)) <==> !ValidPayload(p))
            && (phase == Done(Rejected(429)) <==> ValidPayload(p) && !pass)
            && (phase == Done(Rejected(401)) <==> ValidPayload(p) && pass && !SecretInUse(c, secret))
            && (phase == Done(Rejected(500)) <==>
                  ValidPayload(p) && pass && SecretInUse(c, secret) && c.serverKey == "")
  {
    hide ValidPayload, VerifySecret, LimiterHistory.Answered;
    BothAreAsked(m, now, sourceIp, p.serial);
    if secret.Some? {
      SecretPassesExactly(c.hash, secret.value, c.secretCurrent, c.secretPrevious);
    }
  }

  method PassGates(c: Settings, limiter: RateLimiter, now: Time, sourceIp: string, secret: Option<string>, p: Payload)
      returns (phase: Phase)
    requires limiter.Valid()
    modifies limiter, limiter.Objects()
    ensures limiter.Valid() && fresh(limiter.Objects() - old(limiter.Objects()))
    ensures (limiter.View(), phase) == Gates(c, old(limiter.View()), now, sourceIp, secret, p)
    ensures phase == Done(Rejected(429)) <==>
              && ValidPayload(p)
              && !(LimiterHistory.Answered(old(limiter.View()), IpKey(sourceIp), now)
                   && LimiterHistory.Answered(old(limiter.View()), SerialKey(p.serial), now))
  {
    BothAreAsked(limiter.View(), now, sourceIp, p.serial);
    if !ValidPayload(p) {
      return Done(Rejected(422));
    }
    var ipOk := limiter.CheckRateLimit(IpKey(sourceIp), now);
    var serialOk := limiter.CheckRateLimit(SerialKey(p.serial), now);
    if !(ipOk && serialOk) {
      return Done(Rejected(429));
    }
    if secret.None? || secret.value == "" {
      return Done(Rejected(401));
    }
    var slot := VerifySecret(c.hash, secret.value, c.secretCurrent, c.secretPrevious);
    if slot.None? {
      return Done(Rejected(401));
    }
    if c.serverKey == "" {
      return Done(Rejected(500));
    }
    return Admitted(p);
  }

  // ----- the handler ----------------------------------------------------------------

  /** A request and what the environment gives it: clocks, the minted token, the write. */
  datatype Call = Call(now: Time, sourceIp: string, secret: Option<string>, payload: Payload,
                       raw: string, at: Time, fault: Fault, helperOk: bool)

  /** What the handler works on. */
  datatype World = World(tables: Tables, file: Option<string>, buckets: Buckets)

  predicate Writes(fault: Fault) {
    fault in {Smooth, ChownDenied}
  }

  /** The file after a sync whose write may fail. */
  function FileAfter(conf: Layout, file: Option<string>, rows: seq<RouterRow>, fault: Fault): Option<string> {
    if file.Some? && Writes(fault) then Some(Synced(conf, file.value, Peers.ActivePeers(rows))) else file
  }

  function Enrolled(c: Settings, w: World, call: Call): (World, Response) {
    var (m', phase) := Gates(c, w.buckets, call.now, call.sourceIp, call.secret, call.payload);
    if phase.Done? then (w.(buckets := m'), phase.response)
    else
      var (t', file', response) := Served(c, w.tables, w.file, call);
      (World(t', file', m'), response)
  }

  /** Behind the gates: the transaction, then the sync. */
  function Served(c: Settings, t: Tables, file: Option<string>, call: Call): (Tables, Option<string>, Response) {
    var (t', row) := Transact(c, t, call.payload, call.raw, call.at);
    match row
    case None => (t', file, Rejected(500))
    case Some((id, ip)) =>
      var ok := file.Some? && Writes(call.fault) && call.helperOk;
      (t', FileAfter(c.conf, file, t'.routers, call.fault),
       if ok then Provision(Enrolment(id, call.payload.serial, call.raw), ip) else Rejected(500))
  }

  method Serve(c: Settings, store: Store, dir: ConfigDir, temp: nat, call: Call) returns (response: Response)
    requires ValidConf(c.conf) && temp !in dir.temps
    modifies store, dir
    ensures (store.View(), dir.target, response) == Served(c, old(store.View()), old(dir.target), call)
  {
    var row := EnrolRow(c, store, call.payload, call.raw, call.at);
    if row.None? {
      return Rejected(500);
    }
    ghost var t := store.View();
    var synced := SyncFromDb(c.conf, dir, store.routers, temp, call.fault, call.helperOk);
    assert store.View() == t;
    if synced.Failure? {
      return Rejected(500);
    }
    var (id, ip) := row.value;
    return Provision(Enrolment(id, call.payload.serial, call.raw), ip);
  }

  /** The handler, with nothing else running: gates, transaction, commit, sync, answer. */
  method AutoEnroll(c: Settings, store: Store, limiter: RateLimiter, dir: ConfigDir, temp: nat, call: Call)
      returns (response: Response)
    requires ValidConf(c.conf) && limiter.Valid() && temp !in dir.temps
    modifies store, limiter, limiter.Objects(), dir
    ensures limiter.Valid() && fresh(limiter.Objects() - old(limiter.Objects()))
    ensures (World(store.View(), dir.target, limiter.View()), response)
         == Enrolled(c, World(old(store.View()), old(dir.target), old(limiter.View())), call)
  {
    hide Gates, Served;
    var phase := PassGates(c, limiter, call.now, call.sourceIp, call.secret, call.payload);
    if phase.Done? {
      return phase.response;
    }
    ghost var m := limiter.View();
    response := Serve(c, store, dir, temp, call);
    assert limiter.View() == m;
  }

  // ----- alone, the handler is a run of the control plane ---------------------------

  lemma OneMore(c: Settings, file: Option<string>, run: seq<Step>, s: State, step: Step)
    requires Exec(c, file, run) == Some(s) && Enabled(s, step)
    ensures Exec(c, file, run + [step]) == Some(Apply(c, s, step))
  {
    assert (run + [step])[..|run|] == run;
  }

  /** Nothing but the request has moved. */
  predicate OnlyMoved(s: State, s': State, id: nat, phase: Phase) {
    && s'.tables == s.tables && s'.log == s.log && s'.file == s.file && s'.buckets == s.buckets
    && s'.requests == s.requests[id := phase]
  }

  lemma Advances(c: Settings, file: Option<string>, run: seq<Step>, s: State, step: Step) returns (s': State)
    requires Exec(c, file, run) == Some(s) && Enabled(s, step)
    requires step.Lookup? || step.AllocateIp? || step.Fetch? || step.ReadBlock?
    ensures Exec(c, file, run + [step]) == Some(s')
    ensures OnlyMoved(s, s', step.id, Advance(c, s, s.requests[step.id]))
  {
    OneMore(c, file, run, s, step);
    s' := Apply(c, s, step);
  }

  lemma Commits(c: Settings, file: Option<string>, run: seq<Step>, s: State, id: nat, raw: string, at: Time)
      returns (s': State)
    requires Exec(c, file, run) == Some(s) && Enabled(s, Commit(id, raw, at))
    ensures Exec(c, file, run + [Commit(id, raw, at)]) == Some(s')
    ensures var (t', log', phase) := CommitPhase(c, s, s.requests[id], raw, at);
            && s'.tables == t' && s'.file == s.file && s'.buckets == s.buckets
            && id in s'.requests && s'.requests[id] == phase
  {
    OneMore(c, file, run, s, Commit(id, raw, at));
    s' := Apply(c, s, Commit(id, raw, at));
  }

  /** What a request that holds this row answers. */
  function AfterRow(row: Option<(nat, Option<Address>)>, serial: string, raw: string): Phase {
    match row
    case None => Done(Rejected(500))
    case Some((id, ip)) => Syncing(ForEnrolment(Enrolment(id, serial, raw), ip))
  }

  lemma CommitOfFound(c: Settings, s: State, p: Payload, raw: string, at: Time)
    requires c.columns.text(p.serial) && FindSerial(s.tables.routers, p.serial).Some?
    ensures var id := FindSerial(s.tables.routers, p.serial).value;
            var (t', log', phase) := CommitPhase(c, s, Found(p, id, s.tables.routers[id]), raw, at);
            var (t, row) := Transact(c, s.tables, p, raw, at);
            t' == t && phase == AfterRow(row, p.serial, raw)
  {
  }

  lemma CommitOfAllocated(c: Settings, s: State, p: Payload, ip: Address, raw: string, at: Time)
    requires c.columns.text(p.serial) && FindSerial(s.tables.routers, p.serial).None?
    requires Allocate(c.network, c.serverIp, UsedIps(s.tables.routers)) == Some(ip)
    ensures var (t', log', phase) := CommitPhase(c, s, Allocated(p, ip), raw, at);
            var (t, row) := Transact(c, s.tables, p, raw, at);
            t' == t && phase == AfterRow(row, p.serial, raw)
  {
  }

  lemma TransactIsARun(c: Settings, file: Option<string>, run: seq<Step>, s: State, id: nat, p: Payload,
                       raw: string, at: Time) returns (later: seq<Step>, s': State)
    requires Exec(c, file, run) == Some(s) && id in s.requests && s.requests[id] == Admitted(p)
    requires |raw| >= PREFIX_LEN && !Minted(s.log, raw)
    ensures Exec(c, file, later) == Some(s')
    ensures var (t, row) := Transact(c, s.tables, p, raw, at);
            && s'.tables == t && s'.file == s.file && s'.buckets == s.buckets
            && id in s'.requests && s'.requests[id] == AfterRow(row, p.serial, raw)
  {
    hide Apply, Exec, CommitPhase;
    later := run + [Lookup(id)];
    s' := Advances(c, file, run, s, Lookup(id));
    if s'.requests[id].Found? {
      var found := Commits(c, file, later, s', id, raw, at);
      CommitOfFound(c, s', p, raw, at);
      later, s' := later + [Commit(id, raw, at)], found;
    } else if s'.requests[id].NotFound? {
      var next := Advances(c, file, later, s', AllocateIp(id));
      later, s' := later + [AllocateIp(id)], next;
      if s'.requests[id].Allocated? {
        var inserted := Commits(c, file, later, s', id, raw, at);
        CommitOfAllocated(c, s', p, s'.requests[id].ip, raw, at);
        later, s' := later + [Commit(id, raw, at)], inserted;
      }
    }
  }

  lemma Replaces(c: Settings, file: Option<string>, run: seq<Step>, s: State, id: nat, helperOk: bool)
      returns (s': State)
    requires Exec(c, file, run) == Some(s) && id in s.requests && s.requests[id].Composed? && s.file.Some?
    ensures Exec(c, file, run + [Replace(id)] + [Helper(id, helperOk)]) == Some(s')
    ensures var phase := s.requests[id];
            && s'.tables == s.tables && s'.buckets == s.buckets && id in s'.requests
            && s'.file == Some(Rendered(c.conf, phase.block, phase.peers))
            && s'.requests[id] == Done(if helperOk then Answer(phase.job) else Rejected(500))
  {
    OneMore(c, file, run, s, Replace(id));
    var replaced := Apply(c, s, Replace(id));
    OneMore(c, file, run + [Replace(id)], replaced, Helper(id, helperOk));
    s' := Apply(c, replaced, Helper(id, helperOk));
  }

  lemma Fails(c: Settings, file: Option<string>, run: seq<Step>, s: State, id: nat) returns (s': State)
    requires Exec(c, file, run) == Some(s) && Enabled(s, Fail(id))
    ensures Exec(c, file, run + [Fail(id)]) == Some(s') && OnlyMoved(s, s', id, Done(Rejected(500)))
  {
    OneMore(c, file, run, s, Fail(id));
    s' := Apply(c, s, Fail(id));
  }

  /** A sync that nothing interleaves with writes the peers of the present table under the
      interface block of the present file. */
  lemma SyncIsARun(c: Settings, file: Option<string>, run: seq<Step>, s: State, id: nat, fault: Fault, helperOk: bool)
      returns (later: seq<Step>, s': State)
    requires Exec(c, file, run) == Some(s) && id in s.requests && s.requests[id].Syncing?
    ensures Exec(c, file, later) == Some(s')
    ensures && s'.tables == s.tables && s'.buckets == s.buckets
            && s'.file == FileAfter(c.conf, s.file, s.tables.routers, fault)
            && id in s'.requests
            && s'.requests[id] == Done(if s.file.Some? && Writes(fault) && helperOk
                                       then Answer(s.requests[id].job) else Rejected(500))
  {
    hide Apply, Exec, Peers.ActivePeers, InterfaceBlock, Rendered;
    var fetched := Advances(c, file, run, s, Fetch(id));
    later, s' := run + [Fetch(id)], fetched;
    var read := Advances(c, file, later, s', ReadBlock(id));
    later, s' := later + [ReadBlock(id)], read;
    if s.file.Some? {
      if Writes(fault) {
        var helped := Replaces(c, file, later, s', id, helperOk);
        later, s' := later + [Replace(id)] + [Helper(id, helperOk)], helped;
      } else {
        var failed := Fails(c, file, later, s', id);
        later, s' := later + [Fail(id)], failed;
      }
    }
  }

  lemma Begins(c: Settings, file: Option<string>, run: seq<Step>, s: State, id: nat, call: Call) returns (s': State)
    requires Exec(c, file, run) == Some(s) && id !in s.requests && s.now <= call.now
    ensures Exec(c, file, run + [Begin(id, call.now, call.sourceIp, call.secret, call.payload)]) == Some(s')
    ensures var (m', phase) := Gates(c, s.buckets, call.now, call.sourceIp, call.secret, call.payload);
            && s'.tables == s.tables && s'.log == s.log && s'.file == s.file && s'.buckets == m'
            && id in s'.requests && s'.requests[id] == phase
  {
    var step := Begin(id, call.now, call.sourceIp, call.secret, call.payload);
    OneMore(c, file, run, s, step);
    s' := Apply(c, s, step);
  }

  /** Running the handler alone, from any reachable state and with a fresh token, is a run of the
      control plane: it ends in the tables, file, buckets and answer the handler gives. */
  lemma HandlerIsARun(c: Settings, file: Option<string>, run: seq<Step>, s: State, id: nat, call: Call)
      returns (later: seq<Step>, s': State)
    requires Exec(c, file, run) == Some(s) && id !in s.requests && s.now <= call.now
    requires |call.raw| >= PREFIX_LEN && !Minted(s.log, call.raw)
    ensures Exec(c, file, later) == Some(s') && id in s'.requests && s'.requests[id].Done?
    ensures (World(s'.tables, s'.file, s'.buckets), s'.requests[id].response)
         == Enrolled(c, World(s.tables, s.file, s.buckets), call)
  {
    hide Apply, Exec, Gates, Transact, FileAfter;
    var begun := Begins(c, file, run, s, id, call);
    later, s' := run + [Begin(id, call.now, call.sourceIp, call.secret, call.payload)], begun;
    GatesEnd(c, s.buckets, call.now, call.sourceIp, call.secret, call.payload);
    if !begun.requests[id].Done? {
      var moved, t := TransactIsARun(c, file, later, s', id, call.payload, call.raw, call.at);
      later, s' := moved, t;
      if t.requests[id].Syncing? {
        var synced, u := SyncIsARun(c, file, later, t, id, call.fault, call.helperOk);
        later, s' := synced, u;
      }
    }
  }

  // ----- retries --------------------------------------------------------------------

  /** The one unrevoked token of a router is the last one in the table. */
  predicate OnlyLastIsActive(tokens: seq<TokenRow>, id: nat, minted: TokenRow) {
    && tokens != [] && tokens[|tokens| - 1] == minted
    && forall i :: 0 <= i < |tokens| ==> (tokens[i].routerId == id && tokens[i].revokedAt.None? <==> i == |tokens| - 1)
  }

  lemma ReenrolAgain(hash: Hash, cols: Columns, t: Tables, id: nat, p: Payload,
                     raw1: string, at1: Time, raw2: string, at2: Time)
    requires id < |t.routers| && Reenrol(hash, cols, t, id, t.routers[id], p, raw1, at1).Some?
    ensures var first := Reenrol(hash, cols, t, id, t.routers[id], p, raw1, at1).value;
            var retry := Reenrol(hash, cols, first, id, first.routers[id], p, raw2, at2);
            var single := Reenrol(hash, cols, t, id, t.routers[id], p, raw2, at2);
            && retry.Some? && single.Some? && retry.value.routers == single.value.routers
            && OnlyLastIsActive(retry.value.tokens, id, MintedRow(hash, id, raw2))
  {
    var row := t.routers[id];
    var row1, row2 := UpdatedRow(cols, row, row, p, at1), UpdatedRow(cols, row, row, p, at2);
    assert UpdatedRow(cols, row1, row1, p, at2) == row2;
    assert forall i :: 0 <= i < |t.routers| && i != id ==> Clash(t.routers[i], row1) == Clash(t.routers[i], row2);
    assert t.routers[id := row1][id := row2] == t.routers[id := row2];
  }

  lemma SerialFoundOnce(rows: seq<RouterRow>, id: nat, serial: string)
    requires UniqueRows(rows) && id < |rows| && rows[id].serial == serial
    ensures FindSerial(rows, serial) == Some(id)
  {
    var found := FindSerial(rows, serial).value;
    assert found < id ==> Clash(rows[found], rows[id]);
    assert id < found ==> Clash(rows[id], rows[found]);
  }

  /** Whatever happened to the answer of a committed attempt, repeating it with the same payload
      commits, names the same router and address, leaves the very router table that a single
      attempt would, and leaves the router one active token, the one just minted. */
  lemma RetryConvergesAlways(c: Settings, t: Tables, p: Payload, raw1: string, at1: Time, raw2: string, at2: Time)
    requires UniqueRows(t.routers)
    requires forall i :: 0 <= i < |t.tokens| ==> t.tokens[i].routerId < |t.routers|
    requires Transact(c, t, p, raw1, at1).1.Some?
    ensures var (t1, first) := Transact(c, t, p, raw1, at1);
            var (t2, retry) := Transact(c, t1, p, raw2, at2);
            var (t3, single) := Transact(c, t, p, raw2, at2);
            && retry == first && single == first && t2.routers == t3.routers
            && OnlyLastIsActive(t2.tokens, first.value.0, MintedRow(c.hash, first.value.0, raw2))
  {
    var found := FindSerial(t.routers, p.serial);
    var (t1, first) := Transact(c, t, p, raw1, at1);
    if found.Some? {
      ReenrolAgain(c.hash, c.columns, t, found.value, p, raw1, at1, raw2, at2);
      ReenrolKeepsUnique(c.hash, c.columns, t, found.value, t.routers[found.value], p, raw1, at1);
      SerialFoundOnce(t1.routers, found.value, p.serial);
    } else {
      var ip := Allocate(c.network, c.serverIp, UsedIps(t.routers)).value;
      RetryConverges(c.hash, c.columns, t, p, ip, raw1, at1, raw2, at2);
    }
  }
}

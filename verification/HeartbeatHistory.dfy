/** Heartbeats over whole runs. A POST charges its source, looks up its token, charges the router,
    reads its row and writes, each at its own step, with anything in between. */
module HeartbeatHistory {
  import opened Wrappers
  import opened RateLimit
  import opened RequestChecks
  import opened Database
  import opened RouterTokens
  import opened ControlPlane
  import opened Invariant
  import opened AllocationHistory
  import opened TokenHistory
  import opened LimiterHistory
  import opened RequestHistory
  import opened Overlay
  import opened WgConfig
  import Peers
  import StatusHistory
  import Telemetry

  // ----- the gates of a heartbeat, each at its own step -----------------------------

  /** The bearer was read and the source granted. */
  predicate Arrived(c: Settings, file: Option<string>, run: seq<Step>, id: nat, beat: Beat)
    requires IsRun(c, file, run)
  {
    && beat.chargedAt < |run| && run[beat.chargedAt].Post?
    && var step := run[beat.chargedAt];
    && step.id == id && ExtractBearer(step.authorization) == Success(beat.raw)
    && Answered(StateAt(c, file, run, beat.chargedAt).buckets, Telemetry.SourceKey(step.sourceIp), step.now)
  }

  /** The bearer was the token of the router's latest committed enrolment. */
  ghost predicate Identified(c: Settings, file: Option<string>, run: seq<Step>, id: nat, beat: Beat)
    requires IsRun(c, file, run)
  {
    && beat.chargedAt < beat.knownAt < |run| && run[beat.knownAt] == FindToken(id)
    && Holds(StateAt(c, file, run, beat.knownAt).log, beat.raw, beat.routerId)
  }

  /** The router was within its limit. */
  predicate WithinLimit(c: Settings, file: Option<string>, run: seq<Step>, id: nat, beat: Beat)
    requires IsRun(c, file, run)
  {
    && beat.knownAt < beat.limitedAt < |run| && run[beat.limitedAt] == ChargeRouter(id, beat.limitTime)
    && Answered(StateAt(c, file, run, beat.limitedAt).buckets, Telemetry.RouterKey(beat.routerId), beat.limitTime)
  }

  /** A router whose heartbeats are welcome. */
  predicate Welcome(rows: seq<RouterRow>, routerId: nat) {
    routerId < |rows| && Permits(rows[routerId].status)
  }

  predicate Permits(status: Status) {
    status !in {Decommissioned, Quarantined}
  }

  lemma PermitsExactly(status: Status)
    ensures Permits(status) <==> status == Active || status == Pending
  {
  }

  /** The router was neither decommissioned nor quarantined. */
  predicate Permitted(c: Settings, file: Option<string>, run: seq<Step>, id: nat, beat: Beat)
    requires IsRun(c, file, run)
  {
    && beat.limitedAt < beat.readAt < |run| && run[beat.readAt] == ReadStatus(id)
    && Welcome(StateAt(c, file, run, beat.readAt).tables.routers, beat.routerId)
  }

  ghost predicate AllGates(c: Settings, file: Option<string>, run: seq<Step>, id: nat, beat: Beat)
    requires IsRun(c, file, run)
  {
    && Arrived(c, file, run, id, beat) && Identified(c, file, run, id, beat)
    && WithinLimit(c, file, run, id, beat) && Permitted(c, file, run, id, beat)
  }

  /** Step w, before step n, noted that the router was heard from. */
  predicate TouchedAt(run: seq<Step>, n: nat, id: nat, w: nat) {
    w < n <= |run| && run[w].Touch? && run[w].id == id
  }

  // ----- what a heartbeat has passed so far -----------------------------------------

  ghost predicate BeatOk(c: Settings, file: Option<string>, run: seq<Step>, n: nat, id: nat, phase: Phase)
    requires IsRun(c, file, run) && n <= |run|
  {
    match phase
    case Charged(beat) => beat.chargedAt < n && Arrived(c, file, run, id, beat)
    case Known(beat) => beat.knownAt < n && Arrived(c, file, run, id, beat) && Identified(c, file, run, id, beat)
    case Limited(beat) =>
      && beat.limitedAt < n && Arrived(c, file, run, id, beat) && Identified(c, file, run, id, beat)
      && WithinLimit(c, file, run, id, beat)
    case Cleared(beat) => beat.readAt < n && AllGates(c, file, run, id, beat)
    case Done(response) => response.Heard? ==> HeardOk(c, file, run, n, id, response.beat)
    case _ => true
  }

  ghost predicate HeardOk(c: Settings, file: Option<string>, run: seq<Step>, n: nat, id: nat, beat: Beat)
    requires IsRun(c, file, run) && n <= |run|
  {
    AllGates(c, file, run, id, beat) && exists w :: beat.readAt < w && TouchedAt(run, n, id, w)
  }

  lemma GatesStay(c: Settings, file: Option<string>, run: seq<Step>, n: nat, id: nat, phase: Phase)
    requires IsRun(c, file, run) && n < |run| && BeatOk(c, file, run, n, id, phase)
    ensures BeatOk(c, file, run, n + 1, id, phase)
  {
    hide Exec, Apply, AllGates, Arrived, Identified, WithinLimit;
    if phase.Done? && phase.response.Heard? {
      var w :| phase.response.beat.readAt < w && TouchedAt(run, n, id, w);
      assert TouchedAt(run, n + 1, id, w);
    }
  }

  /** The later fields of a beat do not matter to the earlier gates. */
  lemma ArrivedAlike(c: Settings, file: Option<string>, run: seq<Step>, id: nat, a: Beat, b: Beat)
    requires IsRun(c, file, run) && Arrived(c, file, run, id, a) && a.raw == b.raw && a.chargedAt == b.chargedAt
    ensures Arrived(c, file, run, id, b)
  {
    hide Exec, Apply, Answered;
  }

  lemma IdentifiedAlike(c: Settings, file: Option<string>, run: seq<Step>, id: nat, a: Beat, b: Beat)
    requires IsRun(c, file, run) && Identified(c, file, run, id, a)
    requires a.(limitedAt := b.limitedAt, limitTime := b.limitTime, readAt := b.readAt) == b
    ensures Identified(c, file, run, id, b)
  {
    hide Exec, Apply, Holds;
  }

  lemma WithinLimitAlike(c: Settings, file: Option<string>, run: seq<Step>, id: nat, a: Beat, b: Beat)
    requires IsRun(c, file, run) && WithinLimit(c, file, run, id, a) && a.(readAt := b.readAt) == b
    ensures WithinLimit(c, file, run, id, b)
  {
    hide Exec, Apply, Answered;
  }

  // ----- the verdict of each step ---------------------------------------------------

  lemma InvTokens(c: Settings, file: Option<string>, s: State)
    requires Inv(c, file, s)
    ensures TokensOk(c.hash, s.tables.tokens, s.log) && LogOk(s.tables.routers, s.log)
  {
  }

  lemma LookupVerdict(c: Settings, file: Option<string>, s: State, beat: Beat)
    requires Deployed(c) && Inv(c, file, s)
    ensures var phase := Advance(c, s, Charged(beat));
            && (phase.Known? ==>
                  && phase.beat == beat.(routerId := phase.beat.routerId, knownAt := s.steps)
                  && Holds(s.log, beat.raw, phase.beat.routerId))
            && (!phase.Known? ==> phase == Done(Rejected(401)) && forall r :: !Holds(s.log, beat.raw, r))
  {
    hide Inv, TokensOk, LogOk, IndexedLookup, Holds;
    InvTokens(c, file, s);
    var found := IndexedLookup(c.hash, s.tables.tokens, beat.raw);
    LookupInLog(c.hash, s.tables, s.log, beat.raw);
    forall r ensures Holds(s.log, beat.raw, r) <==> found.Some? && s.tables.tokens[found.value].routerId == r {
      LookupHolds(c.hash, s.tables, s.log, beat.raw, r);
    }
    if found.Some? {
      assert Holds(s.log, beat.raw, s.tables.tokens[found.value].routerId);
    }
  }

  lemma HoldsOnce(c: Settings, file: Option<string>, s: State, raw: string, r: nat, q: nat)
    requires Inv(c, file, s) && Holds(s.log, raw, r) && Holds(s.log, raw, q)
    ensures r == q
  {
    hide RoutersOk, TokensOk, RequestsOk, FileOk;
  }

  lemma StatusVerdict(c: Settings, s: State, beat: Beat)
    ensures var phase := Advance(c, s, Limited(beat));
            if Welcome(s.tables.routers, beat.routerId) then phase == Cleared(beat.(readAt := s.steps))
            else phase == Done(Rejected(if beat.routerId < |s.tables.routers| then 403 else 401))
  {
  }

  // ----- soundness ------------------------------------------------------------------

  /** The steps of a heartbeat. */
  predicate BeatStep(step: Step) {
    step.Post? || step.FindToken? || step.ChargeRouter? || step.ReadStatus? || step.Touch?
  }

  lemma OtherStepsNoBeat(c: Settings, s: State, step: Step)
    requires Enabled(s, step) && Moved(c, s, step).Some? && !BeatStep(step)
    ensures var phase := Moved(c, s, step).value.1;
            && !phase.Charged? && !phase.Known? && !phase.Limited? && !phase.Cleared?
            && (phase.Done? ==> !phase.response.Heard?)
  {
    hide Gates, CommitPhase;
    match step
    case Begin(_, now, sourceIp, secret, p) => GatesEnd(c, s.buckets, now, sourceIp, secret, p);
    case Commit(id, raw, now) => CommitEnd(c, s, s.requests[id], raw, now);
    case _ =>
  }

  lemma PostSound(c: Settings, file: Option<string>, run: seq<Step>, n: nat)
    requires IsRun(c, file, run) && n < |run| && run[n].Post?
    ensures var s := StateAt(c, file, run, n);
            var step := run[n];
            var phase := Arrive(s.buckets, step.now, step.sourceIp, step.authorization, s.steps).1;
            BeatOk(c, file, run, n + 1, step.id, phase)
  {
    hide Exec, Apply, ExtractBearer, Arrive, Answered;
    var s, step := StateAt(c, file, run, n), run[n];
    StepsCount(c, file, run, n);
    ArriveVerdict(s.buckets, step.now, step.sourceIp, step.authorization, s.steps);
  }

  lemma FindSound(c: Settings, file: Option<string>, run: seq<Step>, n: nat, id: nat, beat: Beat)
    requires Deployed(c) && IsRun(c, file, run) && n < |run| && run[n] == FindToken(id)
    requires BeatOk(c, file, run, n, id, Charged(beat))
    ensures BeatOk(c, file, run, n + 1, id, Advance(c, StateAt(c, file, run, n), Charged(beat)))
  {
    hide Exec, Apply, Holds, Arrived, Advance, Inv;
    var s := StateAt(c, file, run, n);
    StepsCount(c, file, run, n);
    StateInv(c, file, run, n);
    LookupVerdict(c, file, s, beat);
    var phase := Advance(c, s, Charged(beat));
    if phase.Known? {
      ArrivedAlike(c, file, run, id, beat, phase.beat);
    }
  }

  lemma LimitSound(c: Settings, file: Option<string>, run: seq<Step>, n: nat, id: nat, now: Time, beat: Beat)
    requires IsRun(c, file, run) && n < |run| && run[n] == ChargeRouter(id, now)
    requires BeatOk(c, file, run, n, id, Known(beat))
    ensures var s := StateAt(c, file, run, n); BeatOk(c, file, run, n + 1, id, Limit(s.buckets, now, beat, s.steps).1)
  {
    hide Exec, Apply, Arrived, Identified, Check;
    var s := StateAt(c, file, run, n);
    StepsCount(c, file, run, n);
    LimitVerdict(s.buckets, now, beat, s.steps);
    var phase := Limit(s.buckets, now, beat, s.steps).1;
    if phase.Limited? {
      ArrivedAlike(c, file, run, id, beat, phase.beat);
      IdentifiedAlike(c, file, run, id, beat, phase.beat);
      KnownBefore(c, file, run, n, id, beat);
    }
  }

  lemma KnownBefore(c: Settings, file: Option<string>, run: seq<Step>, n: nat, id: nat, beat: Beat)
    requires IsRun(c, file, run) && n <= |run| && BeatOk(c, file, run, n, id, Known(beat))
    ensures beat.knownAt < n
  {
    hide Exec, Apply, Arrived, Identified;
  }

  lemma ReadSound(c: Settings, file: Option<string>, run: seq<Step>, n: nat, id: nat, beat: Beat)
    requires IsRun(c, file, run) && n < |run| && run[n] == ReadStatus(id)
    requires BeatOk(c, file, run, n, id, Limited(beat))
    ensures BeatOk(c, file, run, n + 1, id, Advance(c, StateAt(c, file, run, n), Limited(beat)))
  {
    hide Exec, Apply, Arrived, Identified, WithinLimit, Advance, Welcome;
    var s := StateAt(c, file, run, n);
    StepsCount(c, file, run, n);
    StatusVerdict(c, s, beat);
    if Welcome(s.tables.routers, beat.routerId) {
      var cleared := beat.(readAt := s.steps);
      ArrivedAlike(c, file, run, id, beat, cleared);
      IdentifiedAlike(c, file, run, id, beat, cleared);
      WithinLimitAlike(c, file, run, id, beat, cleared);
    }
  }

  lemma TouchSound(c: Settings, file: Option<string>, run: seq<Step>, n: nat, id: nat, beat: Beat)
    requires IsRun(c, file, run) && n < |run| && run[n].Touch? && run[n].id == id
    requires BeatOk(c, file, run, n, id, Cleared(beat))
    ensures BeatOk(c, file, run, n + 1, id, Done(Heard(beat)))
  {
    hide Exec, Apply, AllGates;
    assert TouchedAt(run, n + 1, id, n);
  }

  lemma MovedSound(c: Settings, file: Option<string>, run: seq<Step>, n: nat)
    requires Deployed(c) && IsRun(c, file, run) && n < |run|
    requires var s := StateAt(c, file, run, n);
             && Enabled(s, run[n]) && Moved(c, s, run[n]).Some?
             && forall id :: id in s.requests ==> BeatOk(c, file, run, n, id, s.requests[id])
    ensures var (id, phase) := Moved(c, StateAt(c, file, run, n), run[n]).value;
            BeatOk(c, file, run, n + 1, id, phase)
  {
    hide Exec, Apply, Gates, CommitPhase, Arrive, Limit, Arrived, AllGates, Identified, WithinLimit, HeardOk;
    var s := StateAt(c, file, run, n);
    match run[n]
    case Post(_, _, _, _) => PostSound(c, file, run, n);
    case FindToken(id) => FindSound(c, file, run, n, id, s.requests[id].beat);
    case ChargeRouter(id, now) => LimitSound(c, file, run, n, id, now, s.requests[id].beat);
    case ReadStatus(id) => ReadSound(c, file, run, n, id, s.requests[id].beat);
    case Touch(id, _) => TouchSound(c, file, run, n, id, s.requests[id].beat);
    case _ => OtherStepsNoBeat(c, s, run[n]);
  }

  lemma {:induction false} BeatsSound(c: Settings, file: Option<string>, run: seq<Step>, n: nat)
    requires Deployed(c) && IsRun(c, file, run) && n <= |run|
    ensures var s := StateAt(c, file, run, n);
            forall id :: id in s.requests ==> BeatOk(c, file, run, n, id, s.requests[id])
    decreases n
  {
    hide Exec, Apply, Moved, BeatOk;
    if n == 0 {
      NoRequests(c, file, run);
    } else {
      BeatsSound(c, file, run, n - 1);
      BeatsStep(c, file, run, n - 1);
    }
  }

  lemma BeatsStep(c: Settings, file: Option<string>, run: seq<Step>, n: nat)
    requires Deployed(c) && IsRun(c, file, run) && n < |run|
    requires var s := StateAt(c, file, run, n);
             forall id :: id in s.requests ==> BeatOk(c, file, run, n, id, s.requests[id])
    ensures var s' := StateAt(c, file, run, n + 1);
            forall id :: id in s'.requests ==> BeatOk(c, file, run, n + 1, id, s'.requests[id])
  {
    hide Exec, Apply, Moved, BeatOk;
    var s, s' := StateAt(c, file, run, n), StateAt(c, file, run, n + 1);
    NextState(c, file, run, n);
    ApplyMoves(c, s, run[n]);
    if Moved(c, s, run[n]).Some? {
      MovedSound(c, file, run, n);
    }
    forall id | id in s'.requests && (Moved(c, s, run[n]).Some? ==> Moved(c, s, run[n]).value.0 != id)
      ensures BeatOk(c, file, run, n + 1, id, s'.requests[id])
    {
      GatesStay(c, file, run, n, id, s.requests[id]);
    }
  }

  // ----- completeness ---------------------------------------------------------------

  lemma ArrivedLeads(c: Settings, file: Option<string>, run: seq<Step>, id: nat, beat: Beat)
    requires IsRun(c, file, run) && Arrived(c, file, run, id, beat)
    ensures Stands(c, file, run, beat.chargedAt + 1, id, Charged(Beat(beat.raw, beat.chargedAt, 0, 0, 0, 0.0, 0)))
  {
    hide Exec, Apply, ExtractBearer, Arrive, Answered, Stands;
    var n := beat.chargedAt;
    var s, step := StateAt(c, file, run, n), run[n];
    NextState(c, file, run, n);
    StepsCount(c, file, run, n);
    ArriveVerdict(s.buckets, step.now, step.sourceIp, step.authorization, s.steps);
    StandsNext(c, file, run, n, id, Charged(Beat(beat.raw, n, 0, 0, 0, 0.0, 0)));
  }

  lemma IdentifiedLeads(c: Settings, file: Option<string>, run: seq<Step>, id: nat, beat: Beat)
    requires Deployed(c) && IsRun(c, file, run) && Identified(c, file, run, id, beat)
    requires Stands(c, file, run, beat.chargedAt + 1, id, Charged(Beat(beat.raw, beat.chargedAt, 0, 0, 0, 0.0, 0)))
    ensures Stands(c, file, run, beat.knownAt + 1, id,
                   Known(Beat(beat.raw, beat.chargedAt, beat.routerId, beat.knownAt, 0, 0.0, 0)))
  {
    hide Exec, Apply, Holds, Advance, Inv;
    var n, before := beat.knownAt, Beat(beat.raw, beat.chargedAt, 0, 0, 0, 0.0, 0);
    var s := StateAt(c, file, run, n);
    NextState(c, file, run, n);
    StillStands(c, file, run, id, beat.chargedAt + 1, n, Charged(before));
    StepsCount(c, file, run, n);
    StateInv(c, file, run, n);
    LookupVerdict(c, file, s, before);
    var phase := Advance(c, s, Charged(before));
    HoldsOnce(c, file, s, beat.raw, beat.routerId, phase.beat.routerId);
    StandsNext(c, file, run, n, id, phase);
  }

  lemma LimitLeads(c: Settings, file: Option<string>, run: seq<Step>, id: nat, beat: Beat)
    requires IsRun(c, file, run) && WithinLimit(c, file, run, id, beat)
    requires Stands(c, file, run, beat.knownAt + 1, id,
                    Known(Beat(beat.raw, beat.chargedAt, beat.routerId, beat.knownAt, 0, 0.0, 0)))
    ensures Stands(c, file, run, beat.limitedAt + 1, id, Limited(beat.(readAt := 0)))
  {
    hide Exec, Apply, Answered, Limit;
    var n, before := beat.limitedAt, Beat(beat.raw, beat.chargedAt, beat.routerId, beat.knownAt, 0, 0.0, 0);
    var s := StateAt(c, file, run, n);
    NextState(c, file, run, n);
    StillStands(c, file, run, id, beat.knownAt + 1, n, Known(before));
    StepsCount(c, file, run, n);
    LimitVerdict(s.buckets, beat.limitTime, before, s.steps);
    StandsNext(c, file, run, n, id, Limited(beat.(readAt := 0)));
  }

  lemma PermittedLeads(c: Settings, file: Option<string>, run: seq<Step>, id: nat, beat: Beat)
    requires IsRun(c, file, run) && Permitted(c, file, run, id, beat)
    requires Stands(c, file, run, beat.limitedAt + 1, id, Limited(beat.(readAt := 0)))
    ensures Stands(c, file, run, beat.readAt + 1, id, Cleared(beat))
  {
    hide Exec, Apply, Advance, Welcome;
    var n, before := beat.readAt, beat.(readAt := 0);
    var s := StateAt(c, file, run, n);
    NextState(c, file, run, n);
    StillStands(c, file, run, id, beat.limitedAt + 1, n, Limited(before));
    StepsCount(c, file, run, n);
    StatusVerdict(c, s, before);
    StandsNext(c, file, run, n, id, Cleared(beat));
  }

  lemma TouchLeads(c: Settings, file: Option<string>, run: seq<Step>, n: nat, id: nat, beat: Beat, w: nat)
    requires IsRun(c, file, run) && n <= |run| && beat.readAt < w && TouchedAt(run, n, id, w)
    requires Stands(c, file, run, beat.readAt + 1, id, Cleared(beat))
    ensures Stands(c, file, run, w + 1, id, Done(Heard(beat)))
  {
    hide Exec, Apply;
    NextState(c, file, run, w);
    StillStands(c, file, run, id, beat.readAt + 1, w, Cleared(beat));
    StandsNext(c, file, run, w, id, Done(Heard(beat)));
  }

  /** A heartbeat is accepted exactly when each gate let it through at its own step: the source
      granted when the POST arrived, the bearer was the token of the router's latest committed
      enrolment when it was looked up, the router granted when it was charged, and it was neither
      decommissioned nor quarantined when its row was read; and the write followed. */
  lemma HeardExactly(c: Settings, file: Option<string>, run: seq<Step>, n: nat, id: nat, beat: Beat)
    requires Deployed(c) && IsRun(c, file, run) && n <= |run|
    ensures Stands(c, file, run, n, id, Done(Heard(beat))) <==>
              AllGates(c, file, run, id, beat) && exists w :: beat.readAt < w && TouchedAt(run, n, id, w)
  {
    hide Exec, Apply, Arrived, Identified, WithinLimit, Permitted;
    if Stands(c, file, run, n, id, Done(Heard(beat))) {
      BeatsSound(c, file, run, n);
    }
    if AllGates(c, file, run, id, beat) {
      if w :| beat.readAt < w && TouchedAt(run, n, id, w) {
        ArrivedLeads(c, file, run, id, beat);
        IdentifiedLeads(c, file, run, id, beat);
        LimitLeads(c, file, run, id, beat);
        PermittedLeads(c, file, run, id, beat);
        TouchLeads(c, file, run, n, id, beat, w);
        DoneStands(c, file, run, id, w + 1, n, Heard(beat));
      }
    }
  }

  // ----- what still holds at the write ----------------------------------------------

  /** Step j commits an enrolment of the router. */
  predicate CommitsFor(c: Settings, file: Option<string>, run: seq<Step>, j: nat, r: nat)
    requires IsRun(c, file, run) && j < |run|
  {
    var before, after := StateAt(c, file, run, j).log, StateAt(c, file, run, j + 1).log;
    |before| < |after| && after[|before|].routerId == r
  }

  lemma LogNext(c: Settings, s: State, step: Step)
    requires Enabled(s, step)
    ensures var log' := Apply(c, s, step).log; log' == s.log || exists e :: log' == s.log + [e]
  {
    hide Gates, Advance, Arrive, Limit, Touched;
    if step.Commit? {
      CommitLog(c, s, s.requests[step.id], step.raw, step.now);
    }
  }

  lemma CommitLog(c: Settings, s: State, phase: Phase, raw: string, now: Time)
    requires phase.Allocated? || phase.Found?
    ensures var log' := CommitPhase(c, s, phase, raw, now).1; log' == s.log || exists e :: log' == s.log + [e]
  {
  }

  lemma HoldsBesideOthers(log: seq<Enrolment>, e: Enrolment, raw: string, r: nat)
    requires Holds(log, raw, r) && e.routerId != r
    ensures Holds(log + [e], raw, r)
  {
    var i :| Latest(log, i) && log[i].routerId == r && log[i].raw == raw;
    SupersededAppend(log, e, i);
    assert Latest(log + [e], i);
  }

  lemma HoldsNext(c: Settings, file: Option<string>, run: seq<Step>, j: nat, raw: string, r: nat)
    requires IsRun(c, file, run) && j < |run| && !CommitsFor(c, file, run, j, r)
    requires Holds(StateAt(c, file, run, j).log, raw, r)
    ensures Holds(StateAt(c, file, run, j + 1).log, raw, r)
  {
    hide Exec, Apply, Holds;
    NextState(c, file, run, j);
    var log, log' := StateAt(c, file, run, j).log, StateAt(c, file, run, j + 1).log;
    LogNext(c, StateAt(c, file, run, j), run[j]);
    if log' != log {
      var e :| log' == log + [e];
      HoldsBesideOthers(log, e, raw, r);
    }
  }

  lemma {:induction false} HoldsThrough(c: Settings, file: Option<string>, run: seq<Step>, k: nat, w: nat,
                                        raw: string, r: nat)
    requires IsRun(c, file, run) && k <= w <= |run| && Holds(StateAt(c, file, run, k).log, raw, r)
    requires forall j :: k <= j < w ==> !CommitsFor(c, file, run, j, r)
    ensures Holds(StateAt(c, file, run, w).log, raw, r)
    decreases w
  {
    hide Exec, Apply, Holds, CommitsFor;
    if k < w {
      HoldsThrough(c, file, run, k, w - 1, raw, r);
      HoldsNext(c, file, run, w - 1, raw, r);
    }
  }

  /** Step j is the last before step w, from step k on, in which an administrator set the status of
      the router. */
  predicate LastChange(run: seq<Step>, k: nat, w: nat, r: nat, j: nat) {
    && k <= j < w <= |run| && run[j].SetStatus? && run[j].routerId == r
    && forall i :: j < i < w ==> !(run[i].SetStatus? && run[i].routerId == r)
  }

  ghost predicate LastChangePermits(run: seq<Step>, k: nat, w: nat, r: nat) {
    forall j: nat :: LastChange(run, k, w, r, j) ==> Permits(run[j].status)
  }

  lemma LastChangeNext(run: seq<Step>, k: nat, w: nat, r: nat)
    requires k <= w < |run|
    ensures LastChangePermits(run, k, w + 1, r) <==>
              if run[w].SetStatus? && run[w].routerId == r then Permits(run[w].status)
              else LastChangePermits(run, k, w, r)
  {
    if run[w].SetStatus? && run[w].routerId == r {
      assert LastChange(run, k, w + 1, r, w);
    } else {
      forall j: nat ensures LastChange(run, k, w + 1, r, j) <==> LastChange(run, k, w, r, j) {
      }
    }
  }

  lemma WelcomeNext(c: Settings, file: Option<string>, run: seq<Step>, w: nat, r: nat)
    requires IsRun(c, file, run) && w < |run| && r < |StateAt(c, file, run, w).tables.routers|
    ensures r < |StateAt(c, file, run, w + 1).tables.routers|
    ensures Welcome(StateAt(c, file, run, w + 1).tables.routers, r) <==>
              if run[w].SetStatus? && run[w].routerId == r then Permits(run[w].status)
              else Welcome(StateAt(c, file, run, w).tables.routers, r)
  {
    hide Exec;
    NextState(c, file, run, w);
    StatusHistory.StepStatus(c, StateAt(c, file, run, w), run[w], r);
  }

  lemma {:induction false} WelcomeThrough(c: Settings, file: Option<string>, run: seq<Step>, k: nat, w: nat, r: nat)
    requires IsRun(c, file, run) && k <= w <= |run| && Welcome(StateAt(c, file, run, k).tables.routers, r)
    ensures r < |StateAt(c, file, run, w).tables.routers|
    ensures Welcome(StateAt(c, file, run, w).tables.routers, r) <==> LastChangePermits(run, k, w, r)
    decreases w
  {
    hide Exec, Apply, LastChangePermits, Permits;
    if k < w {
      WelcomeThrough(c, file, run, k, w - 1, r);
      WelcomeNext(c, file, run, w - 1, r);
      LastChangeNext(run, k, w - 1, r);
    } else {
      NoChangeYet(run, k, r);
    }
  }

  lemma NoChangeYet(run: seq<Step>, k: nat, r: nat)
    ensures LastChangePermits(run, k, k, r)
  {
  }

  lemma SupersededForGood(log: seq<Enrolment>, mid: seq<Enrolment>, later: seq<Enrolment>, raw: string, r: nat)
    requires Holds(log, raw, r) && log <= mid <= later
    requires |mid| < |later| && later[|mid|].routerId == r
    requires forall i, j :: 0 <= i < j < |later| ==> later[i].raw != later[j].raw
    ensures !Holds(later, raw, r)
  {
    var i :| Latest(log, i) && log[i].routerId == r && log[i].raw == raw;
    assert later[i].raw == raw && later[i].routerId == r;
    assert Superseded(later, i) by {
      assert i < |mid| && later[|mid|].routerId == later[i].routerId;
    }
  }

  lemma CommitSupersedes(c: Settings, file: Option<string>, run: seq<Step>, k: nat, j: nat, w: nat, raw: string, r: nat)
    requires Deployed(c) && IsRun(c, file, run) && k <= j < w <= |run|
    requires Holds(StateAt(c, file, run, k).log, raw, r) && CommitsFor(c, file, run, j, r)
    ensures !Holds(StateAt(c, file, run, w).log, raw, r)
  {
    hide Exec, Apply, Holds, Extends;
    RoutersPersist(c, file, run, k, j);
    RoutersPersist(c, file, run, j, j + 1);
    RoutersPersist(c, file, run, j + 1, w);
    DistinctTokens(c, file, run, w);
    SupersededForGood(StateAt(c, file, run, k).log, StateAt(c, file, run, j).log, StateAt(c, file, run, w).log, raw, r);
  }

  lemma DistinctTokens(c: Settings, file: Option<string>, run: seq<Step>, w: nat)
    requires Deployed(c) && IsRun(c, file, run) && w <= |run|
    ensures var log := StateAt(c, file, run, w).log;
            forall i, j :: 0 <= i < j < |log| ==> log[i].raw != log[j].raw
  {
    hide Exec, Apply, RoutersOk, TokensOk, RequestsOk, FileOk;
    StateInv(c, file, run, w);
  }

  /** The write of a heartbeat sets when its router was last seen, and changes no other column, row or
      table. */
  lemma TouchExactly(c: Settings, s: State, id: nat, now: Time)
    requires Enabled(s, Touch(id, now)) && s.requests[id].beat.routerId < |s.tables.routers|
    ensures var s' := Apply(c, s, Touch(id, now));
            var r := s.requests[id].beat.routerId;
            && |s'.tables.routers| == |s.tables.routers| && s'.tables.tokens == s.tables.tokens
            && s'.tables.routers[r].lastSeenAt == Some(now)
            && s'.tables.routers[r] == s.tables.routers[r].(lastSeenAt := s'.tables.routers[r].lastSeenAt)
            && (forall i :: 0 <= i < |s.tables.routers| && i != r ==> s'.tables.routers[i] == s.tables.routers[i])
            && s'.log == s.log && s'.file == s.file && s'.buckets == s.buckets
  {
  }

  /** The accepted bearer is still the router's latest token at the write exactly when no
      enrolment of the router has committed since it was looked up. */
  lemma CurrentExactly(c: Settings, file: Option<string>, run: seq<Step>, n: nat, id: nat, beat: Beat, w: nat)
    requires Deployed(c) && IsRun(c, file, run) && n <= |run| && Stands(c, file, run, n, id, Done(Heard(beat)))
    requires beat.readAt < w && TouchedAt(run, n, id, w)
    ensures Holds(StateAt(c, file, run, w).log, beat.raw, beat.routerId) <==>
              forall j :: beat.knownAt <= j < w ==> !CommitsFor(c, file, run, j, beat.routerId)
  {
    hide Exec, Apply, Arrived, WithinLimit, Permitted, Holds, CommitsFor, Stands;
    HeardExactly(c, file, run, n, id, beat);
    OrderOfGates(c, file, run, id, beat);
    if j :| beat.knownAt <= j < w && CommitsFor(c, file, run, j, beat.routerId) {
      CommitSupersedes(c, file, run, beat.knownAt, j, w, beat.raw, beat.routerId);
    } else {
      HoldsThrough(c, file, run, beat.knownAt, w, beat.raw, beat.routerId);
    }
  }

  /** A router that was heard is welcome at the write exactly when its last status change since its
      row was read, if there was one, still permits it. */
  lemma WelcomeExactly(c: Settings, file: Option<string>, run: seq<Step>, n: nat, id: nat, beat: Beat, w: nat)
    requires Deployed(c) && IsRun(c, file, run) && n <= |run| && Stands(c, file, run, n, id, Done(Heard(beat)))
    requires beat.readAt < w && TouchedAt(run, n, id, w)
    ensures Welcome(StateAt(c, file, run, w).tables.routers, beat.routerId) <==>
              LastChangePermits(run, beat.readAt, w, beat.routerId)
  {
    hide Exec, Apply, Arrived, Identified, WithinLimit, Welcome, Stands, LastChangePermits;
    HeardExactly(c, file, run, n, id, beat);
    WelcomeThrough(c, file, run, beat.readAt, w, beat.routerId);
  }

  lemma OrderOfGates(c: Settings, file: Option<string>, run: seq<Step>, id: nat, beat: Beat)
    requires IsRun(c, file, run) && AllGates(c, file, run, id, beat)
    ensures beat.chargedAt < beat.knownAt < beat.limitedAt < beat.readAt < |run|
  {
    hide Exec, Apply, Holds, Welcome, Answered;
  }
}

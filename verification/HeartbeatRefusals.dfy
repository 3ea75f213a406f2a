/** Why heartbeats are refused, over whole runs: each refusal by the step that made it. */
module HeartbeatRefusals {
  import opened Wrappers
  import opened RateLimit
  import opened RequestChecks
  import opened Database
  import opened RouterTokens
  import opened ControlPlane
  import opened Invariant
  import opened AllocationHistory
  import opened TokenHistory
  import opened LimiterHistory
  import opened HeartbeatHistory
  import opened RequestHistory
  import Telemetry

  // ----- the refusals ---------------------------------------------------------------

  /** A POST without a bearer arrived at step k. */
  predicate BadHeader(run: seq<Step>, id: nat, k: nat) {
    k < |run| && run[k].Post? && run[k].id == id && ExtractBearer(run[k].authorization).Failure?
  }

  /** It had one, and its source was over the limit. */
  predicate SourceOver(c: Settings, file: Option<string>, run: seq<Step>, id: nat, k: nat)
    requires IsRun(c, file, run)
  {
    && k < |run| && run[k].Post? && run[k].id == id && ExtractBearer(run[k].authorization).Success?
    && !Answered(StateAt(c, file, run, k).buckets, Telemetry.SourceKey(run[k].sourceIp), run[k].now)
  }

  /** At its lookup the bearer was no latest enrolment's token. */
  ghost predicate NobodysToken(c: Settings, file: Option<string>, run: seq<Step>, id: nat, beat: Beat, k: nat)
    requires IsRun(c, file, run)
  {
    && Arrived(c, file, run, id, beat)
    && beat.chargedAt < k < |run| && run[k] == FindToken(id)
    && forall r :: !Holds(StateAt(c, file, run, k).log, beat.raw, r)
  }

  /** When it was charged the router was over its limit. */
  ghost predicate RouterOver(c: Settings, file: Option<string>, run: seq<Step>, id: nat, beat: Beat, k: nat)
    requires IsRun(c, file, run)
  {
    && Arrived(c, file, run, id, beat) && Identified(c, file, run, id, beat)
    && beat.knownAt < k < |run| && run[k].ChargeRouter? && run[k].id == id
    && !Answered(StateAt(c, file, run, k).buckets, Telemetry.RouterKey(beat.routerId), run[k].now)
  }

  /** When its row was read the router was decommissioned or quarantined. */
  ghost predicate Barred(c: Settings, file: Option<string>, run: seq<Step>, id: nat, beat: Beat, k: nat)
    requires IsRun(c, file, run)
  {
    && Arrived(c, file, run, id, beat) && Identified(c, file, run, id, beat) && WithinLimit(c, file, run, id, beat)
    && beat.limitedAt < k < |run| && run[k] == ReadStatus(id)
    && !Welcome(StateAt(c, file, run, k).tables.routers, beat.routerId)
  }

  /** Step k refused the heartbeat with this code. */
  ghost predicate RefusedBy(c: Settings, file: Option<string>, run: seq<Step>, id: nat, k: nat, code: nat)
    requires IsRun(c, file, run)
  {
    match code
    case 401 => BadHeader(run, id, k) || exists beat :: NobodysToken(c, file, run, id, beat, k)
    case 429 => SourceOver(c, file, run, id, k) || exists beat :: RouterOver(c, file, run, id, beat, k)
    case 403 => exists beat :: Barred(c, file, run, id, beat, k)
    case _ => false
  }

  // ----- from a refusal to its step -------------------------------------------------

  predicate OnItsWay(phase: Phase) {
    phase.Charged? || phase.Known? || phase.Limited? || phase.Cleared?
  }

  lemma OnItsWayMoves(c: Settings, s: State, step: Step, id: nat)
    requires Enabled(s, step) && id in s.requests && OnItsWay(s.requests[id])
    requires Moved(c, s, step).Some? && Moved(c, s, step).value.0 == id
    ensures step.FindToken? || step.ChargeRouter? || step.ReadStatus? || step.Touch? || step.Fail?
    ensures var phase := Moved(c, s, step).value.1; OnItsWay(phase) || phase.Done?
  {
    hide Gates, CommitPhase, Arrive, Touched, IndexedLookup, FindSerial;
  }

  lemma PostMoves(c: Settings, s: State, step: Step)
    requires Enabled(s, step) && step.Post?
    ensures Moved(c, s, step).Some? && Moved(c, s, step).value.0 == step.id
    ensures var phase := Moved(c, s, step).value.1; OnItsWay(phase) || phase.Done?
  {
    hide Arrive;
    ArriveVerdict(s.buckets, step.now, step.sourceIp, step.authorization, s.steps);
  }

  lemma {:induction false} PostedStays(c: Settings, file: Option<string>, run: seq<Step>, a: nat, n: nat)
    requires IsRun(c, file, run) && a < n <= |run| && run[a].Post?
    ensures var s := StateAt(c, file, run, n);
            run[a].id in s.requests && (OnItsWay(s.requests[run[a].id]) || s.requests[run[a].id].Done?)
    decreases n
  {
    hide Exec, Apply, Moved, OnItsWay, Rank;
    var id := run[a].id;
    NextState(c, file, run, n - 1);
    if a == n - 1 {
      PostMoves(c, StateAt(c, file, run, a), run[a]);
      StandsNext(c, file, run, a, id, Moved(c, StateAt(c, file, run, a), run[a]).value.1);
    } else {
      PostedStays(c, file, run, a, n - 1);
      var s := StateAt(c, file, run, n - 1);
      PhaseNext(c, file, run, id, n - 1);
      MovedOrNot(c, file, run, n - 1, id);
      if s.requests[id].Done? {
        DoneStands(c, file, run, id, n - 1, n, s.requests[id].response);
      } else if Moved(c, s, run[n - 1]).Some? && Moved(c, s, run[n - 1]).value.0 == id {
        OnItsWayMoves(c, s, run[n - 1], id);
      }
    }
  }

  /** The step that ended a heartbeat. */
  lemma {:induction false} EndingStep(c: Settings, file: Option<string>, run: seq<Step>, a: nat, n: nat, id: nat,
                                      response: Response) returns (k: nat)
    requires IsRun(c, file, run) && a < n <= |run| && run[a].Post? && run[a].id == id
    requires Stands(c, file, run, n, id, Done(response))
    ensures a <= k < n && Enabled(StateAt(c, file, run, k), run[k])
    ensures Moved(c, StateAt(c, file, run, k), run[k]) == Some((id, Done(response)))
    ensures k == a || (id in StateAt(c, file, run, k).requests && OnItsWay(StateAt(c, file, run, k).requests[id]))
    decreases n
  {
    hide Exec, Apply, Moved, OnItsWay, Enabled;
    MovedOrNot(c, file, run, n - 1, id);
    if a == n - 1 {
      k := a;
      NextState(c, file, run, a);
      PostMoves(c, StateAt(c, file, run, a), run[a]);
      StandsNext(c, file, run, a, id, Moved(c, StateAt(c, file, run, a), run[a]).value.1);
    } else {
      PostedStays(c, file, run, a, n - 1);
      if StateAt(c, file, run, n - 1).requests[id].Done? {
        DoneStands(c, file, run, id, n - 1, n, StateAt(c, file, run, n - 1).requests[id].response);
        k := EndingStep(c, file, run, a, n - 1, id, response);
      } else {
        k := n - 1;
      }
    }
  }

  lemma RowIsThere(c: Settings, file: Option<string>, run: seq<Step>, id: nat, beat: Beat, k: nat)
    requires Deployed(c) && IsRun(c, file, run) && Identified(c, file, run, id, beat) && beat.knownAt < k <= |run|
    ensures beat.routerId < |StateAt(c, file, run, k).tables.routers|
  {
    hide Exec, Apply, RoutersOk, TokensOk, RequestsOk, FileOk;
    StateInv(c, file, run, beat.knownAt);
    RoutersPersist(c, file, run, beat.knownAt, k);
  }

  lemma PostRefuses(c: Settings, file: Option<string>, run: seq<Step>, k: nat, code: nat)
    requires IsRun(c, file, run) && k < |run| && run[k].Post? && Enabled(StateAt(c, file, run, k), run[k])
    requires Moved(c, StateAt(c, file, run, k), run[k]) == Some((run[k].id, Done(Rejected(code))))
    ensures RefusedBy(c, file, run, run[k].id, k, code)
  {
    hide Exec, Apply, ExtractBearer, Arrive, Answered, NobodysToken, RouterOver;
    var s, step := StateAt(c, file, run, k), run[k];
    ArriveVerdict(s.buckets, step.now, step.sourceIp, step.authorization, s.steps);
  }

  lemma GateRefuses(c: Settings, file: Option<string>, run: seq<Step>, k: nat, id: nat, code: nat)
    requires Deployed(c) && IsRun(c, file, run) && k < |run| && Enabled(StateAt(c, file, run, k), run[k])
    requires id in StateAt(c, file, run, k).requests && OnItsWay(StateAt(c, file, run, k).requests[id])
    requires Moved(c, StateAt(c, file, run, k), run[k]) == Some((id, Done(Rejected(code)))) && code != 500
    ensures RefusedBy(c, file, run, id, k, code)
  {
    hide Exec, Apply, Arrived, Identified, WithinLimit, Permitted, Advance, Limit, Holds, Welcome, Answered, Inv;
    var s := StateAt(c, file, run, k);
    BeatsSound(c, file, run, k);
    assert BeatOk(c, file, run, k, id, s.requests[id]);
    OnItsWayMoves(c, s, run[k], id);
    match run[k]
    case FindToken(_) =>
      StateInv(c, file, run, k);
      LookupVerdict(c, file, s, s.requests[id].beat);
      assert NobodysToken(c, file, run, id, s.requests[id].beat, k);
    case ChargeRouter(_, now) =>
      LimitVerdict(s.buckets, now, s.requests[id].beat, s.steps);
      assert RouterOver(c, file, run, id, s.requests[id].beat, k);
    case ReadStatus(_) =>
      StatusVerdict(c, s, s.requests[id].beat);
      KnownEarlier(c, file, run, id, s.requests[id].beat);
      RowIsThere(c, file, run, id, s.requests[id].beat, k);
      assert Barred(c, file, run, id, s.requests[id].beat, k);
    case Touch(_, _) => TouchHears(c, s, s.requests[id].beat);
    case _ =>
  }

  lemma TouchHears(c: Settings, s: State, beat: Beat)
    ensures Advance(c, s, Cleared(beat)) == Done(Heard(beat))
  {
  }

  lemma KnownEarlier(c: Settings, file: Option<string>, run: seq<Step>, id: nat, beat: Beat)
    requires IsRun(c, file, run) && WithinLimit(c, file, run, id, beat)
    ensures beat.knownAt < beat.limitedAt
  {
    hide Exec, Apply, Answered;
  }

  // ----- from the step to the refusal -----------------------------------------------

  lemma PostRefusalStands(c: Settings, file: Option<string>, run: seq<Step>, id: nat, k: nat)
    requires IsRun(c, file, run)
    ensures BadHeader(run, id, k) ==> Stands(c, file, run, k + 1, id, Done(Rejected(401)))
    ensures SourceOver(c, file, run, id, k) ==> Stands(c, file, run, k + 1, id, Done(Rejected(429)))
  {
    hide Exec, Apply, ExtractBearer, Arrive, Answered, Stands;
    if k < |run| && run[k].Post? && run[k].id == id {
      var s, step := StateAt(c, file, run, k), run[k];
      NextState(c, file, run, k);
      ArriveVerdict(s.buckets, step.now, step.sourceIp, step.authorization, s.steps);
      StandsNext(c, file, run, k, id, Arrive(s.buckets, step.now, step.sourceIp, step.authorization, s.steps).1);
    }
  }

  lemma NobodysTokenStands(c: Settings, file: Option<string>, run: seq<Step>, id: nat, beat: Beat, k: nat)
    requires Deployed(c) && IsRun(c, file, run) && NobodysToken(c, file, run, id, beat, k)
    ensures Stands(c, file, run, k + 1, id, Done(Rejected(401)))
  {
    hide Exec, Apply, Arrived, Advance, Holds, Inv;
    ArrivedLeads(c, file, run, id, beat);
    var s, before := StateAt(c, file, run, k), Beat(beat.raw, beat.chargedAt, 0, 0, 0, 0.0, 0);
    NextState(c, file, run, k);
    StillStands(c, file, run, id, beat.chargedAt + 1, k, Charged(before));
    StateInv(c, file, run, k);
    LookupVerdict(c, file, s, before);
    StandsNext(c, file, run, k, id, Advance(c, s, Charged(before)));
  }

  lemma RouterOverStands(c: Settings, file: Option<string>, run: seq<Step>, id: nat, beat: Beat, k: nat)
    requires Deployed(c) && IsRun(c, file, run) && RouterOver(c, file, run, id, beat, k)
    ensures Stands(c, file, run, k + 1, id, Done(Rejected(429)))
  {
    hide Exec, Apply, Arrived, Identified, Answered, Limit;
    ArrivedLeads(c, file, run, id, beat);
    IdentifiedLeads(c, file, run, id, beat);
    var s := StateAt(c, file, run, k);
    var before := Beat(beat.raw, beat.chargedAt, beat.routerId, beat.knownAt, 0, 0.0, 0);
    NextState(c, file, run, k);
    StillStands(c, file, run, id, beat.knownAt + 1, k, Known(before));
    LimitVerdict(s.buckets, run[k].now, before, s.steps);
    StandsNext(c, file, run, k, id, Done(Rejected(429)));
  }

  lemma BarredStands(c: Settings, file: Option<string>, run: seq<Step>, id: nat, beat: Beat, k: nat)
    requires Deployed(c) && IsRun(c, file, run) && Barred(c, file, run, id, beat, k)
    ensures Stands(c, file, run, k + 1, id, Done(Rejected(403)))
  {
    hide Exec, Apply, Arrived, Identified, WithinLimit, Advance, Welcome;
    ArrivedLeads(c, file, run, id, beat);
    IdentifiedLeads(c, file, run, id, beat);
    LimitLeads(c, file, run, id, beat);
    KnownEarlier(c, file, run, id, beat);
    RowIsThere(c, file, run, id, beat, k);
    var s, before := StateAt(c, file, run, k), beat.(readAt := 0);
    NextState(c, file, run, k);
    StillStands(c, file, run, id, beat.limitedAt + 1, k, Limited(before));
    StatusVerdict(c, s, before);
    StandsNext(c, file, run, k, id, Done(Rejected(403)));
  }

  lemma RefusalStands(c: Settings, file: Option<string>, run: seq<Step>, n: nat, id: nat, k: nat, code: nat)
    requires Deployed(c) && IsRun(c, file, run) && k < n <= |run| && RefusedBy(c, file, run, id, k, code)
    ensures Stands(c, file, run, n, id, Done(Rejected(code)))
  {
    hide Exec, Apply, BadHeader, SourceOver, NobodysToken, RouterOver, Barred, Stands;
    PostRefusalStands(c, file, run, id, k);
    if code == 401 && !BadHeader(run, id, k) {
      var beat :| NobodysToken(c, file, run, id, beat, k);
      NobodysTokenStands(c, file, run, id, beat, k);
    } else if code == 429 && !SourceOver(c, file, run, id, k) {
      var beat :| RouterOver(c, file, run, id, beat, k);
      RouterOverStands(c, file, run, id, beat, k);
    } else if code == 403 {
      var beat :| Barred(c, file, run, id, beat, k);
      BarredStands(c, file, run, id, beat, k);
    }
    DoneStands(c, file, run, id, k + 1, n, Rejected(code));
  }

  /** Why heartbeats are refused, whatever happens in between. 401 exactly when the POST came without
      a bearer, or its bearer was no latest enrolment's token at its lookup; 429 exactly when its
      source was over the limit as it arrived, or the router behind the token when it was charged;
      403 exactly when the router was decommissioned or quarantined as its row was read; and with no
      other code, but for a failure. */
  lemma RefusedExactly(c: Settings, file: Option<string>, run: seq<Step>, n: nat, a: nat, id: nat, code: nat)
    requires Deployed(c) && IsRun(c, file, run) && a < n <= |run| && run[a].Post? && run[a].id == id && code != 500
    ensures Stands(c, file, run, n, id, Done(Rejected(code))) <==>
              exists k :: 0 <= k < n && RefusedBy(c, file, run, id, k, code)
  {
    hide Exec, Apply, Moved, Enabled, OnItsWay, RefusedBy, Stands;
    if Stands(c, file, run, n, id, Done(Rejected(code))) {
      var k := EndingStep(c, file, run, a, n, id, Rejected(code));
      if k == a {
        PostRefuses(c, file, run, k, code);
      } else {
        GateRefuses(c, file, run, k, id, code);
      }
    }
    if k :| 0 <= k < n && RefusedBy(c, file, run, id, k, code) {
      RefusalStands(c, file, run, n, id, k, code);
    }
  }
}

/** Two kinds of run of a heartbeat: one with nothing in between, which is the handler, and one in
    which its token is superseded on the way. */
module HeartbeatRuns {
  import opened Wrappers
  import opened RateLimit
  import opened RequestChecks
  import opened Database
  import opened RouterTokens
  import opened ControlPlane
  import opened Invariant
  import opened AllocationHistory
  import opened AutoEnroll
  import opened LimiterHistory
  import opened TokenHistory
  import opened HeartbeatHistory
  import opened RequestHistory
  import Telemetry

  // ----- one step each --------------------------------------------------------------

  lemma Posts(c: Settings, file: Option<string>, run: seq<Step>, s: State, id: nat, now: Time, sourceIp: string,
              authorization: Option<string>) returns (s': State)
    requires Exec(c, file, run) == Some(s) && id !in s.requests && s.now <= now
    ensures Exec(c, file, run + [Post(id, now, sourceIp, authorization)]) == Some(s')
    ensures var (m', phase) := Arrive(s.buckets, now, sourceIp, authorization, s.steps);
            && OnlyMoved(s.(buckets := m'), s', id, phase)
            && s'.now == now && s'.steps == s.steps + 1
  {
    OneMore(c, file, run, s, Post(id, now, sourceIp, authorization));
    s' := Apply(c, s, Post(id, now, sourceIp, authorization));
  }

  lemma Looks(c: Settings, file: Option<string>, run: seq<Step>, s: State, step: Step) returns (s': State)
    requires Exec(c, file, run) == Some(s) && Enabled(s, step) && (step.FindToken? || step.ReadStatus?)
    ensures Exec(c, file, run + [step]) == Some(s')
    ensures OnlyMoved(s, s', step.id, Advance(c, s, s.requests[step.id])) && s'.now == s.now && s'.steps == s.steps + 1
  {
    OneMore(c, file, run, s, step);
    s' := Apply(c, s, step);
  }

  lemma Charges(c: Settings, file: Option<string>, run: seq<Step>, s: State, id: nat, now: Time) returns (s': State)
    requires Exec(c, file, run) == Some(s) && Enabled(s, ChargeRouter(id, now))
    ensures Exec(c, file, run + [ChargeRouter(id, now)]) == Some(s')
    ensures var (m', phase) := Limit(s.buckets, now, s.requests[id].beat, s.steps);
            && OnlyMoved(s.(buckets := m'), s', id, phase)
            && s'.now == now && s'.steps == s.steps + 1
  {
    OneMore(c, file, run, s, ChargeRouter(id, now));
    s' := Apply(c, s, ChargeRouter(id, now));
  }

  lemma Touches(c: Settings, file: Option<string>, run: seq<Step>, s: State, id: nat, now: Time) returns (s': State)
    requires Exec(c, file, run) == Some(s) && Enabled(s, Touch(id, now))
    ensures Exec(c, file, run + [Touch(id, now)]) == Some(s')
    ensures OnlyMoved(s.(tables := Touched(s.tables, s.requests[id].beat.routerId, now)), s', id,
                      Done(Heard(s.requests[id].beat)))
  {
    OneMore(c, file, run, s, Touch(id, now));
    s' := Apply(c, s, Touch(id, now));
  }

  // ----- the handler alone ----------------------------------------------------------

  /** The answer of a request, as the handler gives it. */
  predicate Answers(response: Response, result: Telemetry.PushResult) {
    match result
    case Accepted(r) => response.Heard? && response.beat.routerId == r
    case Refused(code) => response == Rejected(code)
  }

  predicate EndsAs(s: State, s': State, id: nat, t: Tables, m: Buckets, result: Telemetry.PushResult) {
    && s'.tables == t && s'.buckets == m && s'.log == s.log && s'.file == s.file
    && id in s'.requests && s'.requests[id].Done? && Answers(s'.requests[id].response, result)
  }

  lemma AdmitIsARun(c: Settings, file: Option<string>, run: seq<Step>, s: State, id: nat, now: Time)
      returns (later: seq<Step>, s': State)
    requires Exec(c, file, run) == Some(s) && id in s.requests && s.requests[id].Known? && s.now <= now
    ensures Exec(c, file, later) == Some(s')
    ensures var (t', m', result) := Telemetry.Admit(s.tables, s.buckets, now, s.requests[id].beat.routerId);
            EndsAs(s, s', id, t', m', result)
  {
    hide Apply, Exec, Check;
    later := run + [ChargeRouter(id, now)];
    s' := Charges(c, file, run, s, id, now);
    if s'.requests[id].Limited? {
      var read := Looks(c, file, later, s', ReadStatus(id));
      later, s' := later + [ReadStatus(id)], read;
      if s'.requests[id].Cleared? {
        var touched := Touches(c, file, later, s', id, now);
        later, s' := later + [Touch(id, now)], touched;
      }
    }
  }

  lemma LookupIsARun(c: Settings, file: Option<string>, run: seq<Step>, s: State, id: nat, now: Time)
      returns (later: seq<Step>, s': State)
    requires Exec(c, file, run) == Some(s) && id in s.requests && s.requests[id].Charged? && s.now <= now
    ensures Exec(c, file, later) == Some(s')
    ensures var found := IndexedLookup(c.hash, s.tables.tokens, s.requests[id].beat.raw);
            var (t', m', result) :=
              if found.None? then (s.tables, s.buckets, Telemetry.Refused(401))
              else Telemetry.Admit(s.tables, s.buckets, now, s.tables.tokens[found.value].routerId);
            EndsAs(s, s', id, t', m', result)
  {
    hide Apply, Exec, Telemetry.Admit;
    later := run + [FindToken(id)];
    s' := Looks(c, file, run, s, FindToken(id));
    if s'.requests[id].Known? {
      var admitted, t := AdmitIsARun(c, file, later, s', id, now);
      later, s' := admitted, t;
    }
  }

  /** Running the telemetry handler alone, from any reachable state, is a run of the control plane:
      it ends in the tables, buckets and answer the handler gives. */
  lemma PushIsARun(c: Settings, file: Option<string>, run: seq<Step>, s: State, id: nat, now: Time, sourceIp: string,
                   authorization: Option<string>) returns (later: seq<Step>, s': State)
    requires Exec(c, file, run) == Some(s) && id !in s.requests && s.now <= now
    ensures Exec(c, file, later) == Some(s')
    ensures var (t', m', result) := Telemetry.Push(c.hash, s.tables, s.buckets, now, sourceIp, authorization);
            EndsAs(s, s', id, t', m', result)
  {
    hide Apply, Exec, ExtractBearer, Telemetry.Admit, IndexedLookup, Check;
    later := run + [Post(id, now, sourceIp, authorization)];
    s' := Posts(c, file, run, s, id, now, sourceIp, authorization);
    if s'.requests[id].Charged? {
      var moved, t := LookupIsARun(c, file, later, s', id, now);
      later, s' := moved, t;
    }
  }

  // ----- superseded on the way ------------------------------------------------------

  /** A POST that would be accepted for this router: its bearer is the router's latest token, both
      buckets grant, and the router is welcome. */
  ghost predicate Acceptable(s: State, now: Time, sourceIp: string, authorization: Option<string>, r: nat) {
    && s.now <= now
    && ExtractBearer(authorization).Success? && Holds(s.log, ExtractBearer(authorization).value, r)
    && Answered(s.buckets, Telemetry.SourceKey(sourceIp), now) && Answered(s.buckets, Telemetry.RouterKey(r), now)
    && Welcome(s.tables.routers, r)
  }

  /** A re-enrolment of this router that has been found and can commit. */
  predicate AboutToCommit(c: Settings, s: State, e: nat, r: nat, raw: string) {
    && e in s.requests && s.requests[e].Found? && s.requests[e].routerId == r
    && |raw| >= PREFIX_LEN && !Minted(s.log, raw)
    && Updatable(c, s.tables.routers, r, s.requests[e].loaded, s.requests[e].payload)
  }

  lemma ArriveAndFind(c: Settings, file: Option<string>, run: seq<Step>, s: State, id: nat, now: Time, sourceIp: string,
                      authorization: Option<string>, r: nat) returns (later: seq<Step>, s': State)
    requires Deployed(c) && Exec(c, file, run) == Some(s) && id !in s.requests
    requires Acceptable(s, now, sourceIp, authorization, r)
    ensures Exec(c, file, later) == Some(s')
    ensures var phase := Known(Beat(ExtractBearer(authorization).value, s.steps, r, s.steps + 1, 0, 0.0, 0));
            && s'.requests == s.requests[id := phase]
            && s'.tables == s.tables && s'.log == s.log && s'.now == now
            && Answered(s'.buckets, Telemetry.RouterKey(r), now)
  {
    hide Exec, Apply, Inv, Arrive, Advance, Holds, Welcome, ExtractBearer, Answered;
    var raw := ExtractBearer(authorization).value;
    later := run + [Post(id, now, sourceIp, authorization)];
    var s1 := Posts(c, file, run, s, id, now, sourceIp, authorization);
    ArriveVerdict(s.buckets, now, sourceIp, authorization, s.steps);
    RouterUntouched(s.buckets, now, sourceIp, authorization, s.steps, r);
    var beat := Beat(raw, s.steps, 0, 0, 0, 0.0, 0);
    s' := Looks(c, file, later, s1, FindToken(id));
    RunInv(c, file, later);
    LookupVerdict(c, file, s1, beat);
    HoldsOnce(c, file, s1, raw, r, Advance(c, s1, Charged(beat)).beat.routerId);
    later := later + [FindToken(id)];
  }

  lemma RouterUntouched(m: Buckets, now: Time, sourceIp: string, authorization: Option<string>, at: nat, r: nat)
    ensures var m' := Arrive(m, now, sourceIp, authorization, at).0;
            Answered(m', Telemetry.RouterKey(r), now) == Answered(m, Telemetry.RouterKey(r), now)
  {
    hide ExtractBearer, TryConsume;
    ScopesDiffer(sourceIp, "", r);
  }

  lemma CommitsBetween(c: Settings, file: Option<string>, run: seq<Step>, s: State, e: nat, r: nat, raw: string,
                       now: Time) returns (s': State)
    requires Deployed(c) && Exec(c, file, run) == Some(s)
    requires AboutToCommit(c, s, e, r, raw) && Welcome(s.tables.routers, r)
    ensures Exec(c, file, run + [Commit(e, raw, now)]) == Some(s')
    ensures s'.buckets == s.buckets && s'.now == s.now && Welcome(s'.tables.routers, r)
    ensures s'.log == s.log + [Enrolment(r, s.requests[e].payload.serial, raw)]
    ensures e in s'.requests && s'.requests == s.requests[e := s'.requests[e]]
  {
    OneMore(c, file, run, s, Commit(e, raw, now));
    s' := Apply(c, s, Commit(e, raw, now));
    hide Exec, CommitPhase, Updatable;
    assert Reachable(c, file, s);
    ReenrolmentCommitsExactly(c, file, s, e, raw, now);
  }

  lemma ChargeAndRead(c: Settings, file: Option<string>, run: seq<Step>, s: State, id: nat, now: Time)
      returns (later: seq<Step>, s': State)
    requires Exec(c, file, run) == Some(s) && id in s.requests && s.requests[id].Known? && s.now <= now
    requires Answered(s.buckets, Telemetry.RouterKey(s.requests[id].beat.routerId), now)
    requires Welcome(s.tables.routers, s.requests[id].beat.routerId)
    ensures Exec(c, file, later) == Some(s') && s'.log == s.log && s'.tables == s.tables && id in s'.requests
    ensures && s'.requests[id].Cleared?
            && var (before, after) := (s.requests[id].beat, s'.requests[id].beat);
            after.raw == before.raw && after.routerId == before.routerId
  {
    hide Exec, Apply, Limit, Answered, Welcome, Advance;
    later := run + [ChargeRouter(id, now)];
    var s1 := Charges(c, file, run, s, id, now);
    LimitVerdict(s.buckets, now, s.requests[id].beat, s.steps);
    s' := Looks(c, file, later, s1, ReadStatus(id));
    StatusVerdict(c, s1, s1.requests[id].beat);
    later := later + [ReadStatus(id)];
  }

  /** From every reachable state with an acceptable POST and a re-enrolment of the same router about
      to commit, there is a run in which the re-enrolment commits after the lookup, and the POST is
      accepted although its token is no longer the router's. */
  lemma SupersededTokenIsHeard(c: Settings, file: Option<string>, run: seq<Step>, s: State, id: nat, now: Time,
                               sourceIp: string, authorization: Option<string>, r: nat, e: nat, raw: string)
      returns (later: seq<Step>, s': State)
    requires Deployed(c) && Exec(c, file, run) == Some(s) && id !in s.requests
    requires Acceptable(s, now, sourceIp, authorization, r) && AboutToCommit(c, s, e, r, raw)
    ensures Exec(c, file, later) == Some(s') && id in s'.requests
    ensures && s'.requests[id].Done? && s'.requests[id].response.Heard?
            && var beat := s'.requests[id].response.beat;
            beat.routerId == r && beat.raw == ExtractBearer(authorization).value
    ensures !Holds(s'.log, ExtractBearer(authorization).value, r)
  {
    hide Exec, Apply, Answered, ExtractBearer, Holds, Updatable;
    var bearer := ExtractBearer(authorization).value;
    var found, s1 := ArriveAndFind(c, file, run, s, id, now, sourceIp, authorization, r);
    var s2 := CommitsBetween(c, file, found, s1, e, r, raw, now);
    later := found + [Commit(e, raw, now)];
    var read, s3 := ChargeAndRead(c, file, later, s2, id, now);
    s' := Touches(c, file, read, s3, id, now);
    later := read + [Touch(id, now)];
    NewestTokenHolds(s.log, Enrolment(r, s.requests[e].payload.serial, raw), bearer);
    OldTokenIsMinted(s.log, bearer, r);
  }

  lemma OldTokenIsMinted(log: seq<Enrolment>, raw: string, r: nat)
    requires Holds(log, raw, r)
    ensures Minted(log, raw)
  {
  }

  // ----- decommissioned on the way --------------------------------------------------

  lemma Decommissions(c: Settings, file: Option<string>, run: seq<Step>, s: State, r: nat) returns (s': State)
    requires Exec(c, file, run) == Some(s) && r < |s.tables.routers|
    ensures Exec(c, file, run + [SetStatus(r, Decommissioned)]) == Some(s')
    ensures s'.requests == s.requests && r < |s'.tables.routers| && !Welcome(s'.tables.routers, r)
  {
    OneMore(c, file, run, s, SetStatus(r, Decommissioned));
    s' := Apply(c, s, SetStatus(r, Decommissioned));
  }

  lemma TouchedWelcome(t: Tables, r: nat, now: Time)
    ensures |Touched(t, r, now).routers| == |t.routers|
    ensures Welcome(Touched(t, r, now).routers, r) == Welcome(t.routers, r)
  {
  }

  /** From every reachable state with an acceptable POST there is a run in which the router is
      decommissioned after its row was read, and the POST is accepted all the same. */
  lemma DecommissionedIsHeard(c: Settings, file: Option<string>, run: seq<Step>, s: State, id: nat, now: Time,
                              sourceIp: string, authorization: Option<string>, r: nat)
      returns (later: seq<Step>, s': State)
    requires Deployed(c) && Exec(c, file, run) == Some(s) && id !in s.requests
    requires Acceptable(s, now, sourceIp, authorization, r)
    ensures Exec(c, file, later) == Some(s') && id in s'.requests
    ensures && s'.requests[id].Done? && s'.requests[id].response.Heard?
            && s'.requests[id].response.beat.routerId == r
    ensures r < |s'.tables.routers| && !Welcome(s'.tables.routers, r)
  {
    hide Exec, Apply, Answered, ExtractBearer, Holds, Permits, Touched;
    var found, s1 := ArriveAndFind(c, file, run, s, id, now, sourceIp, authorization, r);
    var read, s2 := ChargeAndRead(c, file, found, s1, id, now);
    var s3 := Decommissions(c, file, read, s2, r);
    later := read + [SetStatus(r, Decommissioned)];
    s' := Touches(c, file, later, s3, id, now);
    later := later + [Touch(id, now)];
    TouchedWelcome(s3.tables, r, now);
  }
}

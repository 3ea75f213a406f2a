/** The limiter over whole runs: however enrolments and heartbeats interleave, each key obeys the
    window bound. */
module LimiterHistory {
  import opened Wrappers
  import opened RateLimit
  import opened RateLimitTraces
  import opened RequestChecks
  import opened Database
  import opened RouterTokens
  import opened ControlPlane
  import Telemetry
  import Text

  // ----- keys -----------------------------------------------------------------------

  lemma ScopesDiffer(sourceIp: string, serial: string, id: nat)
    ensures IpKey(sourceIp) != SerialKey(serial)
    ensures Telemetry.SourceKey(sourceIp) != Telemetry.RouterKey(id)
  {
    assert "auto-enroll-ip"[12] == 'i' && "auto-enroll-serial"[12] == 's';
    assert "telemetry-ip"[10] == 'i' && "telemetry-router"[10] == 'r';
  }

  /** The four limits share no bucket with each other, and each has one for every address, serial or
      router. */
  lemma KeysDiffer(a: string, b: string, i: nat, j: nat)
    ensures IpKey(a) != SerialKey(b) && IpKey(a) != Telemetry.SourceKey(b) && IpKey(a) != Telemetry.RouterKey(i)
    ensures SerialKey(a) != Telemetry.SourceKey(b) && SerialKey(a) != Telemetry.RouterKey(i)
    ensures Telemetry.SourceKey(a) != Telemetry.RouterKey(i)
    ensures IpKey(a) == IpKey(b) <==> a == b
    ensures SerialKey(a) == SerialKey(b) <==> a == b
    ensures Telemetry.SourceKey(a) == Telemetry.SourceKey(b) <==> a == b
    ensures Telemetry.RouterKey(i) == Telemetry.RouterKey(j) <==> i == j
  {
    ScopesDiffer(a, b, i);
    assert "auto-enroll-ip"[0] == 'a' && "auto-enroll-serial"[0] == 'a';
    assert "telemetry-ip"[0] == 't' && "telemetry-router"[0] == 't';
    if Telemetry.RouterKey(i) == Telemetry.RouterKey(j) {
      RouterKeysDiffer(i, j);
    }
  }

  /** Two routers never share a bucket. */
  lemma RouterKeysDiffer(i: nat, j: nat)
    requires Telemetry.RouterKey(i) == Telemetry.RouterKey(j)
    ensures i == j
  {
    Text.NumeralOfDecimal(i);
    Text.NumeralOfDecimal(j);
  }

  // ----- what one step asks of the limiter ------------------------------------------

  predicate Answered(m: Buckets, key: Key, now: Time) {
    TryConsume(BucketFor(m, key, now), now).1
  }

  predicate BeginAsks(sourceIp: string, p: Payload, key: Key) {
    ValidPayload(p) && (key == IpKey(sourceIp) || key == SerialKey(p.serial))
  }

  predicate PostAsks(sourceIp: string, authorization: Option<string>, key: Key) {
    ExtractBearer(authorization).Success? && key == Telemetry.SourceKey(sourceIp)
  }

  predicate Asks(c: Settings, s: State, step: Step, key: Key) {
    match step
    case Begin(_, now, sourceIp, _, p) => BeginAsks(sourceIp, p, key)
    case Post(_, now, sourceIp, authorization) => PostAsks(sourceIp, authorization, key)
    case ChargeRouter(id, _) =>
      id in s.requests && s.requests[id].Known? && key == Telemetry.RouterKey(s.requests[id].beat.routerId)
    case _ => false
  }

  /** The bucket of a key after one question, or untouched. */
  predicate OneQuestion(m: Buckets, m': Buckets, key: Key, now: Time, asked: bool) {
    if asked then key in m' && m'[key] == TryConsume(BucketFor(m, key, now), now).0
    else (key in m' <==> key in m) && (key in m ==> m'[key] == m[key])
  }

  lemma BeginQuestion(c: Settings, m: Buckets, now: Time, sourceIp: string, secret: Option<string>, p: Payload,
                      key: Key)
    ensures OneQuestion(m, Gates(c, m, now, sourceIp, secret, p).0, key, now, BeginAsks(sourceIp, p, key))
    ensures Gates(c, m, now, sourceIp, secret, p).1.Admitted? ==>
              Answered(m, IpKey(sourceIp), now) && Answered(m, SerialKey(p.serial), now) && ValidPayload(p)
  {
    hide ValidPayload, VerifySecret, TryConsume;
    ScopesDiffer(sourceIp, p.serial, 0);
  }

  lemma PostQuestion(m: Buckets, now: Time, sourceIp: string, authorization: Option<string>, at: nat, key: Key)
    ensures OneQuestion(m, Arrive(m, now, sourceIp, authorization, at).0, key, now,
                        PostAsks(sourceIp, authorization, key))
  {
    hide TryConsume, ExtractBearer;
  }

  lemma ChargeQuestion(m: Buckets, now: Time, beat: Beat, at: nat, key: Key)
    ensures OneQuestion(m, Limit(m, now, beat, at).0, key, now, key == Telemetry.RouterKey(beat.routerId))
    ensures Limit(m, now, beat, at).1.Limited? <==> Answered(m, Telemetry.RouterKey(beat.routerId), now)
  {
    hide TryConsume;
  }

  lemma ArriveVerdict(m: Buckets, now: Time, sourceIp: string, authorization: Option<string>, at: nat)
    ensures var phase := Arrive(m, now, sourceIp, authorization, at).1;
            var bearer := ExtractBearer(authorization);
            if bearer.Success? && Answered(m, Telemetry.SourceKey(sourceIp), now)
            then phase == Charged(Beat(bearer.value, at, 0, 0, 0, 0.0, 0))
            else phase == Done(Rejected(if bearer.Success? then 429 else 401))
  {
    hide ExtractBearer, TryConsume;
  }

  lemma LimitVerdict(m: Buckets, now: Time, beat: Beat, at: nat)
    ensures var phase := Limit(m, now, beat, at).1;
            if Answered(m, Telemetry.RouterKey(beat.routerId), now)
            then phase == Limited(beat.(limitedAt := at, limitTime := now))
            else phase == Done(Rejected(429))
  {
  }

  function TimeOf(step: Step): Time {
    match step
    case Begin(_, now, _, _, _) => now
    case Post(_, now, _, _) => now
    case ChargeRouter(_, now) => now
    case _ => 0.0
  }

  /** A step asks each bucket at most once, and touches no bucket that it does not ask. */
  lemma StepQuestion(c: Settings, s: State, step: Step, key: Key)
    requires Enabled(s, step)
    ensures var s' := Apply(c, s, step);
            && s.now <= s'.now
            && OneQuestion(s.buckets, s'.buckets, key, s'.now, Asks(c, s, step, key))
            && (Asks(c, s, step, key) ==> s'.now == TimeOf(step))
  {
    hide Gates, Arrive, Limit, BeginAsks, PostAsks, CommitPhase, Advance, Touched;
    match step
    case Begin(id, now, sourceIp, secret, p) => BeginQuestion(c, s.buckets, now, sourceIp, secret, p, key);
    case Post(_, now, sourceIp, authorization) => PostQuestion(s.buckets, now, sourceIp, authorization, s.steps, key);
    case ChargeRouter(id, now) => ChargeQuestion(s.buckets, now, s.requests[id].beat, s.steps, key);
    case _ =>
  }

  // ----- the window bound -----------------------------------------------------------

  /** What is known of one bucket and of the grants it has given in a window so far. */
  predicate Within(m: Buckets, key: Key, now: Time, t1: Time, t2: Time, grants: nat) {
    && (key in m ==> Valid(m[key]) && m[key].last <= now)
    && (now < t1 ==> grants == 0)
    && (t1 <= now <= t2 ==> grants as real + Level(BucketFor(m, key, now), now) <= 10.0 + (now - t1) / 6.0)
    && (t2 < now ==> grants as real <= 10.0 + (t2 - t1) / 6.0)
  }

  lemma LevelGrows(b: Bucket, now: Time, later: Time)
    requires Valid(b) && b.last <= now <= later
    ensures Level(b, now) <= Level(b, later) <= Level(b, now) + (later - now) / 6.0
    ensures 0.0 <= Level(b, now) && Level(b, later) <= 10.0
  {
  }

  lemma TimePasses(m: Buckets, key: Key, now: Time, later: Time, t1: Time, t2: Time, grants: nat)
    requires t1 <= t2 && now <= later && Within(m, key, now, t1, t2, grants)
    ensures Within(m, key, later, t1, t2, grants)
  {
    if key in m {
      LevelGrows(m[key], now, later);
    }
  }

  /** The verdict, counted when it falls into the window. */
  function Counted(m: Buckets, key: Key, now: Time, t1: Time, t2: Time): nat {
    if t1 <= now <= t2 && Answered(m, key, now) then 1 else 0
  }

  lemma QuestionWithin(m: Buckets, m': Buckets, key: Key, now: Time, t1: Time, t2: Time, grants: nat)
    requires t1 <= t2 && Within(m, key, now, t1, t2, grants) && OneQuestion(m, m', key, now, true)
    ensures Within(m', key, now, t1, t2, grants + Counted(m, key, now, t1, t2))
  {
    var b := BucketFor(m, key, now);
    LevelBounds(b, now);
    LevelBounds(m'[key], now);
  }

  type StepTest = (State, Step) -> bool

  /** How many steps of a run pass a test. */
  function Count(c: Settings, file: Option<string>, run: seq<Step>, test: StepTest): nat
    requires IsRun(c, file, run)
    decreases |run|
  {
    if run == [] then 0
    else
      var init := run[..|run| - 1];
      Count(c, file, init, test) + if test(Exec(c, file, init).value, run[|run| - 1]) then 1 else 0
  }

  predicate GrantsWithin(c: Settings, s: State, step: Step, key: Key, t1: Time, t2: Time) {
    Asks(c, s, step, key) && t1 <= TimeOf(step) <= t2 && Answered(s.buckets, key, TimeOf(step))
  }

  lemma StepWithin(c: Settings, s: State, step: Step, key: Key, t1: Time, t2: Time, grants: nat)
    requires Enabled(s, step) && t1 <= t2 && Within(s.buckets, key, s.now, t1, t2, grants)
    ensures var s' := Apply(c, s, step);
            Within(s'.buckets, key, s'.now, t1, t2, grants + if GrantsWithin(c, s, step, key, t1, t2) then 1 else 0)
  {
    hide Asks, Answered, TimeOf, Level;
    var s' := Apply(c, s, step);
    StepQuestion(c, s, step, key);
    TimePasses(s.buckets, key, s.now, s'.now, t1, t2, grants);
    if Asks(c, s, step, key) {
      QuestionWithin(s.buckets, s'.buckets, key, s'.now, t1, t2, grants);
    }
  }

  lemma {:induction false} RunWithin(c: Settings, file: Option<string>, run: seq<Step>, key: Key, t1: Time, t2: Time)
    requires IsRun(c, file, run) && t1 <= t2
    ensures var s := Exec(c, file, run).value;
            Within(s.buckets, key, s.now, t1, t2,
                   Count(c, file, run, (s, step) => GrantsWithin(c, s, step, key, t1, t2)))
    decreases |run|
  {
    hide GrantsWithin, Enabled;
    if run != [] {
      var init, last := run[..|run| - 1], run[|run| - 1];
      RunWithin(c, file, init, key, t1, t2);
      StepWithin(c, Exec(c, file, init).value, last, key, t1, t2,
                 Count(c, file, init, (s, step) => GrantsWithin(c, s, step, key, t1, t2)));
    }
  }

  /** In every run, with enrolments and heartbeats interleaved in any way, each key is granted at
      most 10 + (t2 - t1)/6 requests within any window. */
  lemma KeyWindowBound(c: Settings, file: Option<string>, run: seq<Step>, key: Key, t1: Time, t2: Time)
    requires IsRun(c, file, run) && t1 <= t2
    ensures Count(c, file, run, (s, step) => GrantsWithin(c, s, step, key, t1, t2)) as real <= 10.0 + (t2 - t1) / 6.0
  {
    RunWithin(c, file, run, key, t1, t2);
    var s := Exec(c, file, run).value;
    var n := Count(c, file, run, (s, step) => GrantsWithin(c, s, step, key, t1, t2));
    WithinBounds(s.buckets, key, s.now, t1, t2, n);
  }

  lemma WithinBounds(m: Buckets, key: Key, now: Time, t1: Time, t2: Time, grants: nat)
    requires t1 <= t2 && Within(m, key, now, t1, t2, grants)
    ensures grants as real <= 10.0 + (t2 - t1) / 6.0
  {
    LevelBounds(BucketFor(m, key, now), now);
  }

  lemma {:induction false} CountMonotone(c: Settings, file: Option<string>, run: seq<Step>, p: StepTest, q: StepTest)
    requires IsRun(c, file, run)
    requires forall s, step :: p(s, step) ==> q(s, step)
    ensures Count(c, file, run, p) <= Count(c, file, run, q)
    decreases |run|
  {
    hide Apply;
    if run != [] {
      CountMonotone(c, file, run[..|run| - 1], p, q);
    }
  }

  /** An enrolment of this serial that gets past the gates within the window. */
  predicate Enrols(c: Settings, s: State, step: Step, serial: string, t1: Time, t2: Time) {
    && step.Begin? && step.payload.serial == serial && t1 <= step.now <= t2
    && Gates(c, s.buckets, step.now, step.sourceIp, step.secret, step.payload).1.Admitted?
  }

  /** Across all source addresses, at most 10 + (t2 - t1)/6 enrolments of one serial get past the
      gates within any window of any run. */
  lemma SerialWindowBound(c: Settings, file: Option<string>, run: seq<Step>, serial: string, t1: Time, t2: Time)
    requires IsRun(c, file, run) && t1 <= t2
    ensures Count(c, file, run, (s, step) => Enrols(c, s, step, serial, t1, t2)) as real <= 10.0 + (t2 - t1) / 6.0
  {
    hide Apply, Exec, GrantsWithin, Enrols;
    var key := SerialKey(serial);
    forall s, step | Enrols(c, s, step, serial, t1, t2) ensures GrantsWithin(c, s, step, key, t1, t2) {
      EnrolsIsGrant(c, s, step, serial, t1, t2);
    }
    CountMonotone(c, file, run, (s, step) => Enrols(c, s, step, serial, t1, t2),
                  (s, step) => GrantsWithin(c, s, step, key, t1, t2));
    KeyWindowBound(c, file, run, key, t1, t2);
  }

  lemma EnrolsIsGrant(c: Settings, s: State, step: Step, serial: string, t1: Time, t2: Time)
    requires Enrols(c, s, step, serial, t1, t2)
    ensures GrantsWithin(c, s, step, SerialKey(serial), t1, t2)
  {
    hide Gates, Answered, ValidPayload;
    BeginQuestion(c, s.buckets, step.now, step.sourceIp, step.secret, step.payload, SerialKey(serial));
  }

  /** An enrolment from this source that gets past the gates within the window. */
  predicate EnrolsFrom(c: Settings, s: State, step: Step, sourceIp: string, t1: Time, t2: Time) {
    && step.Begin? && step.sourceIp == sourceIp && t1 <= step.now <= t2
    && Gates(c, s.buckets, step.now, step.sourceIp, step.secret, step.payload).1.Admitted?
  }

  /** Whatever their serials, at most 10 + (t2 - t1)/6 enrolments from one source address get past
      the gates within any window of any run. */
  lemma SourceWindowBound(c: Settings, file: Option<string>, run: seq<Step>, sourceIp: string, t1: Time, t2: Time)
    requires IsRun(c, file, run) && t1 <= t2
    ensures Count(c, file, run, (s, step) => EnrolsFrom(c, s, step, sourceIp, t1, t2)) as real
         <= 10.0 + (t2 - t1) / 6.0
  {
    hide Apply, Exec, GrantsWithin, EnrolsFrom;
    var key := IpKey(sourceIp);
    forall s, step | EnrolsFrom(c, s, step, sourceIp, t1, t2) ensures GrantsWithin(c, s, step, key, t1, t2) {
      EnrolsFromIsGrant(c, s, step, sourceIp, t1, t2);
    }
    CountMonotone(c, file, run, (s, step) => EnrolsFrom(c, s, step, sourceIp, t1, t2),
                  (s, step) => GrantsWithin(c, s, step, key, t1, t2));
    KeyWindowBound(c, file, run, key, t1, t2);
  }

  lemma EnrolsFromIsGrant(c: Settings, s: State, step: Step, sourceIp: string, t1: Time, t2: Time)
    requires EnrolsFrom(c, s, step, sourceIp, t1, t2)
    ensures GrantsWithin(c, s, step, IpKey(sourceIp), t1, t2)
  {
    hide Gates, Answered, ValidPayload;
    BeginQuestion(c, s.buckets, step.now, step.sourceIp, step.secret, step.payload, IpKey(sourceIp));
  }

  /** A heartbeat of this router whose limit was charged within the window. */
  predicate Due(beat: Beat, id: nat, t1: Time, t2: Time) {
    beat.routerId == id && t1 <= beat.limitTime <= t2
  }

  predicate DuePhase(phase: Phase, id: nat, t1: Time, t2: Time) {
    (phase.Limited? || phase.Cleared?) && Due(phase.beat, id, t1, t2)
  }

  predicate Accepts(s: State, step: Step, id: nat, t1: Time, t2: Time) {
    step.Touch? && step.id in s.requests && s.requests[step.id].Cleared? && Due(s.requests[step.id].beat, id, t1, t2)
  }

  /** The heartbeats on their way that were charged within the window. */
  function Pending(requests: map<nat, Phase>, id: nat, t1: Time, t2: Time): set<nat> {
    set j | j in requests && DuePhase(requests[j], id, t1, t2)
  }

  lemma PendingUpdate(requests: map<nat, Phase>, j: nat, phase: Phase, id: nat, t1: Time, t2: Time)
    ensures |Pending(requests[j := phase], id, t1, t2)| + One(j in requests && DuePhase(requests[j], id, t1, t2))
         == |Pending(requests, id, t1, t2)| + One(DuePhase(phase, id, t1, t2))
  {
    hide DuePhase;
    var before, after := Pending(requests, id, t1, t2), Pending(requests[j := phase], id, t1, t2);
    assert after - {j} == before - {j};
    assert j in before <==> j in requests && DuePhase(requests[j], id, t1, t2);
    assert j in after <==> DuePhase(phase, id, t1, t2);
    Without(before, j);
    Without(after, j);
  }

  lemma Without(s: set<nat>, j: nat)
    ensures |s| == |s - {j}| + One(j in s)
  {
    if j in s {
      assert s == (s - {j}) + {j};
    } else {
      assert s == s - {j};
    }
  }

  /** A request becomes due only by being granted, and stops being so when it is accepted. */
  lemma MovedDue(c: Settings, s: State, step: Step, id: nat, t1: Time, t2: Time)
    requires Enabled(s, step) && Moved(c, s, step).Some?
    ensures var (j, phase) := Moved(c, s, step).value;
            One(DuePhase(phase, id, t1, t2)) + One(Accepts(s, step, id, t1, t2))
            <= One(j in s.requests && DuePhase(s.requests[j], id, t1, t2))
               + One(GrantsWithin(c, s, step, Telemetry.RouterKey(id), t1, t2))
  {
    hide Gates, CommitPhase, Arrive, Limit, Answered, FindSerial, IndexedLookup;
    match step
    case Begin(_, now, sourceIp, secret, p) => GatesEnd(c, s.buckets, now, sourceIp, secret, p);
    case Post(_, now, sourceIp, authorization) => ArriveVerdict(s.buckets, now, sourceIp, authorization, s.steps);
    case Commit(j, raw, now) => CommitEnd(c, s, s.requests[j], raw, now);
    case ChargeRouter(j, now) => LimitVerdict(s.buckets, now, s.requests[j].beat, s.steps);
    case _ =>
  }

  lemma {:induction false} AcceptedWereGranted(c: Settings, file: Option<string>, run: seq<Step>, id: nat,
                                               t1: Time, t2: Time)
    requires IsRun(c, file, run)
    ensures Count(c, file, run, (s, step) => Accepts(s, step, id, t1, t2))
            + |Pending(Exec(c, file, run).value.requests, id, t1, t2)|
         <= Count(c, file, run, (s, step) => GrantsWithin(c, s, step, Telemetry.RouterKey(id), t1, t2))
    decreases |run|
  {
    hide GrantsWithin, Accepts, Moved, Pending;
    if run == [] {
      NonePending(id, t1, t2);
    } else {
      var init, last := run[..|run| - 1], run[|run| - 1];
      AcceptedWereGranted(c, file, init, id, t1, t2);
      PendingStep(c, Exec(c, file, init).value, last, id, t1, t2);
    }
  }

  lemma NonePending(id: nat, t1: Time, t2: Time)
    ensures Pending(map[], id, t1, t2) == {}
  {
  }

  lemma PendingStep(c: Settings, s: State, step: Step, id: nat, t1: Time, t2: Time)
    requires Enabled(s, step)
    ensures |Pending(Apply(c, s, step).requests, id, t1, t2)| + One(Accepts(s, step, id, t1, t2))
         <= |Pending(s.requests, id, t1, t2)| + One(GrantsWithin(c, s, step, Telemetry.RouterKey(id), t1, t2))
  {
    ApplyMoves(c, s, step);
    if Moved(c, s, step).Some? {
      var (j, phase) := Moved(c, s, step).value;
      MovedDue(c, s, step, id, t1, t2);
      PendingUpdate(s.requests, j, phase, id, t1, t2);
    }
  }

  /** At most 10 + (t2 - t1)/6 of the heartbeats of one router that are accepted had their limit
      charged within any window of any run, wherever they came from. */
  lemma RouterWindowBound(c: Settings, file: Option<string>, run: seq<Step>, id: nat, t1: Time, t2: Time)
    requires IsRun(c, file, run) && t1 <= t2
    ensures Count(c, file, run, (s, step) => Accepts(s, step, id, t1, t2)) as real <= 10.0 + (t2 - t1) / 6.0
  {
    hide Apply, Exec, GrantsWithin, Accepts, Pending;
    AcceptedWereGranted(c, file, run, id, t1, t2);
    KeyWindowBound(c, file, run, Telemetry.RouterKey(id), t1, t2);
  }
}

/** How far a request has got, over whole runs. */
module RequestHistory {
  import opened Wrappers
  import opened Overlay
  import opened Database
  import opened RouterTokens
  import opened WgConfig
  import opened ControlPlane
  import opened LimiterHistory
  import Peers

  // ----- requests only move forward -------------------------------------------------

  function Rank(phase: Phase): nat {
    match phase
    case Admitted(_) => 0
    case Found(_, _, _) => 1
    case NotFound(_) => 1
    case Allocated(_, _) => 2
    case Syncing(_) => 3
    case Fetched(_, _, _) => 4
    case Composed(_, _, _, _) => 5
    case Replaced(_) => 6
    case Charged(_) => 1
    case Known(_) => 2
    case Limited(_) => 3
    case Cleared(_) => 4
    case Done(_) => 7
  }

  lemma AdvanceRank(c: Settings, s: State, phase: Phase)
    requires !phase.Found? && !phase.Allocated? && !phase.Known? && !phase.Done?
    ensures Rank(phase) < Rank(Advance(c, s, phase))
  {
    hide Allocate, FindSerial, IndexedLookup, Peers.ActivePeers, ReadInterfaceBlock;
  }

  lemma MovedRank(c: Settings, s: State, step: Step)
    requires Enabled(s, step) && Moved(c, s, step).Some?
    ensures var (id, phase) := Moved(c, s, step).value;
            id in s.requests ==> Rank(s.requests[id]) < Rank(phase)
  {
    hide Gates, CommitPhase, Arrive, Limit, Advance;
    var (j, after) := Moved(c, s, step).value;
    if j in s.requests {
      var before := s.requests[j];
      if !before.Found? && !before.Allocated? && !before.Known? && !before.Done? {
        AdvanceRank(c, s, before);
      }
    }
    match step
    case Commit(id, raw, now) => CommitEnd(c, s, s.requests[id], raw, now);
    case ChargeRouter(id, now) => LimitVerdict(s.buckets, now, s.requests[id].beat, s.steps);
    case _ =>
  }

  lemma PhaseNext(c: Settings, file: Option<string>, run: seq<Step>, id: nat, k: nat)
    requires IsRun(c, file, run) && k < |run| && id in StateAt(c, file, run, k).requests
    ensures var s, s' := StateAt(c, file, run, k), StateAt(c, file, run, k + 1);
            id in s'.requests
            && (s'.requests[id] == s.requests[id] || Rank(s.requests[id]) < Rank(s'.requests[id]))
  {
    hide Apply, Exec, Moved, Rank;
    var s := StateAt(c, file, run, k);
    NextState(c, file, run, k);
    ApplyMoves(c, s, run[k]);
    if Moved(c, s, run[k]).Some? {
      MovedRank(c, s, run[k]);
    }
  }

  /** A request that is as far as it was before is just where it was. */
  lemma {:induction false} PhaseFrom(c: Settings, file: Option<string>, run: seq<Step>, id: nat, j: nat, k: nat)
    requires IsRun(c, file, run) && j <= k <= |run| && id in StateAt(c, file, run, j).requests
    ensures var s, t := StateAt(c, file, run, j), StateAt(c, file, run, k);
            id in t.requests
            && (t.requests[id] == s.requests[id] || Rank(s.requests[id]) < Rank(t.requests[id]))
    decreases k
  {
    hide Apply, Exec, Rank;
    if j < k {
      PhaseFrom(c, file, run, id, j, k - 1);
      PhaseNext(c, file, run, id, k - 1);
    }
  }

  lemma {:induction false} StepsCount(c: Settings, file: Option<string>, run: seq<Step>, n: nat)
    requires IsRun(c, file, run) && n <= |run|
    ensures StateAt(c, file, run, n).steps == n
    decreases n
  {
    if n > 0 {
      StepsCount(c, file, run, n - 1);
      NextState(c, file, run, n - 1);
      ApplyMoves(c, StateAt(c, file, run, n - 1), run[n - 1]);
    } else {
      assert run[..0] == [];
    }
  }

  // ----- how a request got where it is ----------------------------------------------

  /** A step moves a request, or leaves it where it was. */
  lemma MovedOrNot(c: Settings, file: Option<string>, run: seq<Step>, n: nat, id: nat)
    requires IsRun(c, file, run) && n < |run| && id in StateAt(c, file, run, n + 1).requests
    ensures var s, s' := StateAt(c, file, run, n), StateAt(c, file, run, n + 1);
            && Enabled(s, run[n])
            && (Moved(c, s, run[n]) == Some((id, s'.requests[id]))
                || (id in s.requests && s'.requests[id] == s.requests[id]))
  {
    hide Exec, Apply, Moved, Enabled;
    NextState(c, file, run, n);
    ApplyMoves(c, StateAt(c, file, run, n), run[n]);
  }

  lemma NoRequests(c: Settings, file: Option<string>, run: seq<Step>)
    requires IsRun(c, file, run)
    ensures StateAt(c, file, run, 0).requests == map[]
  {
    assert run[..0] == [];
  }

  /** The step that put a request where it is. */
  lemma {:induction false} Origin(c: Settings, file: Option<string>, run: seq<Step>, n: nat, id: nat) returns (k: nat)
    requires IsRun(c, file, run) && n <= |run| && id in StateAt(c, file, run, n).requests
    ensures k < n && Enabled(StateAt(c, file, run, k), run[k])
    ensures Moved(c, StateAt(c, file, run, k), run[k]) == Some((id, StateAt(c, file, run, n).requests[id]))
    decreases n
  {
    hide Exec, Apply, Moved, Enabled;
    if n == 0 {
      NoRequests(c, file, run);
      assert false;
    } else {
      MovedOrNot(c, file, run, n - 1, id);
      var s := StateAt(c, file, run, n - 1);
      if Moved(c, s, run[n - 1]) == Some((id, StateAt(c, file, run, n).requests[id])) {
        k := n - 1;
      } else {
        k := Origin(c, file, run, n - 1, id);
      }
    }
  }

  // ----- a request in one phase -----------------------------------------------------

  predicate Stands(c: Settings, file: Option<string>, run: seq<Step>, n: nat, id: nat, phase: Phase)
    requires IsRun(c, file, run) && n <= |run|
  {
    var s := StateAt(c, file, run, n);
    id in s.requests && s.requests[id] == phase
  }

  lemma StillStands(c: Settings, file: Option<string>, run: seq<Step>, id: nat, j: nat, k: nat, phase: Phase)
    requires IsRun(c, file, run) && j <= k <= |run| && Stands(c, file, run, j, id, phase)
    requires id in StateAt(c, file, run, k).requests ==> Rank(StateAt(c, file, run, k).requests[id]) == Rank(phase)
    ensures Stands(c, file, run, k, id, phase)
  {
    hide Exec, Apply, Rank;
    PhaseFrom(c, file, run, id, j, k);
  }

  lemma StandsNext(c: Settings, file: Option<string>, run: seq<Step>, n: nat, id: nat, phase: Phase)
    requires IsRun(c, file, run) && n < |run|
    requires Enabled(StateAt(c, file, run, n), run[n])
    requires Moved(c, StateAt(c, file, run, n), run[n]) == Some((id, phase))
    ensures Stands(c, file, run, n + 1, id, phase)
  {
    hide Exec, Apply, Moved, Enabled;
    NextState(c, file, run, n);
    ApplyMoves(c, StateAt(c, file, run, n), run[n]);
  }

  lemma DoneStands(c: Settings, file: Option<string>, run: seq<Step>, id: nat, j: nat, k: nat, response: Response)
    requires IsRun(c, file, run) && j <= k <= |run| && Stands(c, file, run, j, id, Done(response))
    ensures Stands(c, file, run, k, id, Done(response))
  {
    hide Exec, Apply;
    PhaseFrom(c, file, run, id, j, k);
  }
}

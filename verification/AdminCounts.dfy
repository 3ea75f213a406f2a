/** What revocations of admin fetch tokens count, over whole runs. */
module AdminCounts {
  import opened Wrappers
  import opened RateLimit
  import opened RequestChecks
  import opened Database
  import opened AdminTokens
  import opened AdminHistory

  // ----- unrevoked tokens -----------------------------------------------------------

  function Open(rows: seq<AdminToken>): set<nat> {
    set i | 0 <= i < |rows| && rows[i].revokedAt.None?
  }

  lemma {:induction false} OpenCount(rows: seq<AdminToken>)
    ensures |Open(rows)| == Unrevoked(rows)
  {
    if rows != [] {
      var n := |rows| - 1;
      OpenCount(rows[..n]);
      assert Open(rows) == Open(rows[..n]) + if rows[n].revokedAt.None? then {n} else {};
    }
  }

  lemma OpenStamped(rows: seq<AdminToken>, ids: set<nat>, at: Time)
    ensures Unrevoked(Stamped(rows, ids, at)) + |ids| >= Unrevoked(rows)
    ensures Unrevoked(Stamped(rows, ids, at)) + |ids| == Unrevoked(rows) <==> ids <= Open(rows)
  {
    OpenCount(rows);
    OpenCount(Stamped(rows, ids, at));
    assert Open(Stamped(rows, ids, at)) == Open(rows) - ids;
    SizeOfUnion(Open(rows), ids);
  }

  lemma SizeOfUnion(a: set<nat>, b: set<nat>)
    ensures |a - b| + |b| >= |a|
    ensures |a - b| + |b| == |a| <==> b <= a
  {
    assert (a - b) + b == a + b;
    assert |a + b| == |a - b| + |b|;
    assert a + b == a + (b - a);
    assert |a + b| == |a| + |b - a|;
    assert b <= a <==> b - a == {};
  }

  /** How many tokens the revocations of the first n steps say they revoked. */
  function Counted(hash: Hash, rows: seq<AdminToken>, run: seq<AdminStep>, n: nat): nat
    requires n <= |run|
  {
    if n == 0 then 0 else Counted(hash, rows, run, n - 1) + |MarksAt(hash, rows, run, n - 1)|
  }

  /** How many tokens the first n steps issue. */
  function Issued(run: seq<AdminStep>, n: nat): nat
    requires n <= |run|
  {
    if n == 0 then 0 else Issued(run, n - 1) + if run[n - 1].Issue? then 1 else 0
  }

  lemma StepCounts(hash: Hash, s: AdminState, n: nat, step: AdminStep)
    ensures var left := Unrevoked(After(hash, s, n, step).rows) + |Marks(s, step)|;
            var had := Unrevoked(s.rows) + if step.Issue? then 1 else 0;
            left >= had && (left == had <==> Marks(s, step) <= Open(s.rows))
  {
    hide PrefixOf, FindValid, Selection, Stamped;
    match step
    case Issue(_, _, _, _, _) =>
      var rows' := After(hash, s, n, step).rows;
      assert rows'[..|rows'| - 1] == s.rows;
    case Write(revoke) =>
      if revoke in s.revokes {
        OpenStamped(s.rows, s.revokes[revoke].ids, s.revokes[revoke].at);
      }
    case Note(use, at) =>
      if use in s.uses {
        OpenCount(s.rows);
        OpenCount(Noted(s.rows, s.uses[use], at));
        assert Open(Noted(s.rows, s.uses[use], at)) == Open(s.rows);
      }
    case _ =>
  }

  /** What a step revokes is still unrevoked exactly when no earlier write shared a token with it. */
  lemma MarksOpenExactly(hash: Hash, rows: seq<AdminToken>, run: seq<AdminStep>, w: nat)
    requires w < |run|
    ensures MarksAt(hash, rows, run, w) <= Open(StateAfter(hash, rows, run, w).rows) <==>
              forall v :: 0 <= v < w ==> MarksAt(hash, rows, run, v) !! MarksAt(hash, rows, run, w)
  {
    hide StateAfter, MarksAt, TimeAt;
    forall i | i in MarksAt(hash, rows, run, w)
      ensures i in Open(StateAfter(hash, rows, run, w).rows) <==>
                forall v :: 0 <= v < w ==> i !in MarksAt(hash, rows, run, v)
    {
      MarkedIsOpenExactly(hash, rows, run, w, i);
    }
  }

  lemma MarkedIsOpenExactly(hash: Hash, rows: seq<AdminToken>, run: seq<AdminStep>, w: nat, i: nat)
    requires w < |run| && i in MarksAt(hash, rows, run, w)
    ensures i in Open(StateAfter(hash, rows, run, w).rows) <==>
              forall v :: 0 <= v < w ==> i !in MarksAt(hash, rows, run, v)
  {
    hide StateAfter, MarksAt, TimeAt;
    var j := MarkedWereRead(hash, rows, run, w, i);
    RowsStay(hash, rows, run, j, w, i);
    RevokedExactly(hash, rows, run, j, w, i);
    if v :| 0 <= v < w && i in MarksAt(hash, rows, run, v) {
      var q := MarkedWereRead(hash, rows, run, v, i);
      RowsStay(hash, rows, run, q, w, i);
      RevokedExactly(hash, rows, run, q, w, i);
    }
  }

  ghost predicate NoSharing(hash: Hash, rows: seq<AdminToken>, run: seq<AdminStep>, n: nat)
    requires n <= |run|
  {
    forall v, w :: 0 <= v < w < n ==> MarksAt(hash, rows, run, v) !! MarksAt(hash, rows, run, w)
  }

  /** The tokens that revocations say they revoked are never fewer than the tokens lost, and they
      are as many exactly when no two revocations that wrote had read a token in common. */
  lemma {:induction false} CountsAddUpExactly(hash: Hash, rows: seq<AdminToken>, run: seq<AdminStep>, n: nat)
    requires n <= |run|
    ensures var (had, left) := (Unrevoked(rows) + Issued(run, n), Unrevoked(StateAfter(hash, rows, run, n).rows));
            && had <= left + Counted(hash, rows, run, n)
            && (had == left + Counted(hash, rows, run, n) <==> NoSharing(hash, rows, run, n))
    decreases n
  {
    hide After, MarksAt;
    if n > 0 {
      CountsAddUpExactly(hash, rows, run, n - 1);
      StepAddsUp(hash, rows, run, n - 1);
      MarksOpenExactly(hash, rows, run, n - 1);
    }
  }

  lemma StepAddsUp(hash: Hash, rows: seq<AdminToken>, run: seq<AdminStep>, n: nat)
    requires n < |run|
    ensures var (s, s') := (StateAfter(hash, rows, run, n), StateAfter(hash, rows, run, n + 1));
            var left := Unrevoked(s'.rows) + |MarksAt(hash, rows, run, n)|;
            var had := Unrevoked(s.rows) + if run[n].Issue? then 1 else 0;
            left >= had && (left == had <==> MarksAt(hash, rows, run, n) <= Open(s.rows))
  {
    hide After, Marks;
    StepCounts(hash, StateAfter(hash, rows, run, n), n, run[n]);
  }
}

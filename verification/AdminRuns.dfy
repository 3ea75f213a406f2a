/** Three kinds of run of admin fetch tokens: a revocation with nothing in between, two revocations
    that overlap, and two uses that overlap. */
module AdminRuns {
  import opened Wrappers
  import opened RateLimit
  import opened RequestChecks
  import opened Database
  import opened AdminTokens
  import opened AdminHistory
  import opened AdminCounts
  import opened AdminUses

  /** A revocation with nothing in between is the one-loop revocation, and what it counts is the
      decrease in unrevoked tokens. */
  lemma OneTransaction(hash: Hash, rows: seq<AdminToken>, run: seq<AdminStep>, n: nat, revoke: nat, ident: string,
                       at: Time)
    requires n + 1 < |run| && run[n] == Select(revoke, ident, at) && run[n + 1] == Write(revoke)
    requires revoke !in StateAfter(hash, rows, run, n).revokes
    ensures var before := StateAfter(hash, rows, run, n);
            var after := StateAfter(hash, rows, run, n + 2);
            && after.rows == RevokeMatching(before.rows, ident, at) && after.revokes == before.revokes
            && Unrevoked(after.rows) + |MarksAt(hash, rows, run, n + 1)| == Unrevoked(before.rows)
  {
    var before := StateAfter(hash, rows, run, n);
    var mid := StateAfter(hash, rows, run, n + 1);
    assert mid.revokes[revoke].ids == Selection(before.rows, ident);
    assert mid.revokes - {revoke} == before.revokes;
    OpenStamped(before.rows, Selection(before.rows, ident), at);
    assert Stamped(before.rows, Selection(before.rows, ident), at) == RevokeMatching(before.rows, ident, at);
  }

  /** Two revocations overlap on a token: the second overwrites the time of the first, and both
      count it. */
  lemma OverlappingRevokes(hash: Hash, rows: seq<AdminToken>, first: string, second: string, at: Time, later: Time,
                           i: nat) returns (run: seq<AdminStep>)
    requires i < |rows| && ToRevoke(rows[i], first) && ToRevoke(rows[i], second)
    ensures |run| == 4
    ensures RevokedAt(hash, rows, run, 3, i) == Some(at) && RevokedAt(hash, rows, run, 4, i) == Some(later)
    ensures i in MarksAt(hash, rows, run, 2) && i in MarksAt(hash, rows, run, 3)
    ensures Unrevoked(rows) < Unrevoked(StateAfter(hash, rows, run, 4).rows) + Counted(hash, rows, run, 4)
  {
    run := [Select(0, first, at), Select(1, second, later), Write(0), Write(1)];
    var s2 := StateAfter(hash, rows, run, 2);
    assert StateAfter(hash, rows, run, 1) == After(hash, StateAfter(hash, rows, run, 0), 0, run[0]);
    assert i in s2.revokes[0].ids && i in s2.revokes[1].ids && s2.revokes[0].at == at && s2.revokes[1].at == later;
    assert i in MarksAt(hash, rows, run, 2);
    RevokedNext(hash, rows, run, 2, i);
    assert StateAfter(hash, rows, run, 3).revokes[1] == s2.revokes[1];
    assert i in MarksAt(hash, rows, run, 3);
    RevokedNext(hash, rows, run, 3, i);
    CountsAddUpExactly(hash, rows, run, 4);
  }

  /** Two uses overlap: one of them is not counted. */
  lemma OverlappingUses(hash: Hash, rows: seq<AdminToken>, raws: seq<string>, now: Time, i: nat)
    returns (run: seq<AdminStep>)
    requires Injective(hash) && TableOk(hash, rows, raws) && i < |rows| && Live(rows[i], now)
    ensures |run| == 4 && NotesOf(hash, rows, run, 4, i) == 2
    ensures UseCount(hash, rows, run, 4, i) == rows[i].useCount + 1
  {
    run := [Accept(0, raws[i], now), Accept(1, raws[i], now), Note(0, now), Note(1, now)];
    AcceptedExactly(hash, rows, raws, raws[i], now, i);
    hide FindValid;
    assert StateAfter(hash, rows, run, 1) == After(hash, StateAfter(hash, rows, run, 0), 0, run[0]);
    var s2 := StateAfter(hash, rows, run, 2);
    assert s2.uses[0] == Using(i, rows[i].useCount, 0) && s2.uses[1] == Using(i, rows[i].useCount, 1);
    UseCountNext(hash, rows, run, 2, i);
    assert StateAfter(hash, rows, run, 3).uses[1] == s2.uses[1];
    UseCountNext(hash, rows, run, 3, i);
    assert NotesOf(hash, rows, run, 2, i) == 0 by {
      assert NotesOf(hash, rows, run, 1, i) == 0;
    }
    assert NotesOf(hash, rows, run, 3, i) == 1;
  }
}

/** Admin fetch tokens over whole runs. A revocation reads the tokens it will revoke and writes them
    when it commits; a use reads its token and writes the count when it commits. Any number of both
    are in flight, and tokens are issued in between. What is revoked stays so. */
module AdminHistory {
  import opened Wrappers
  import opened Text
  import opened RateLimit
  import opened RequestChecks
  import opened Database
  import opened AdminTokens

  /** A revocation that has read its tokens, at the step of this number. */
  datatype Revoking = Revoking(ids: set<nat>, at: Time, readAt: nat)

  /** A use that has read its token and the count. */
  datatype Using = Using(id: nat, count: nat, readAt: nat)

  datatype AdminState = AdminState(rows: seq<AdminToken>, revokes: map<nat, Revoking>, uses: map<nat, Using>)

  /** A request to issue that its checks refuse is no step; one that they let through has a stripped
      label and a time of expiry. */
  datatype AdminStep =
    | Issue(name: string, expiresAt: Time, issuedBy: Option<string>, raw: string, at: Time)
    | Select(revoke: nat, ident: string, at: Time)
    | Write(revoke: nat)
    | Accept(use: nat, raw: string, at: Time)
    | Note(use: nat, at: Time)

  /** The rows a revocation reads. */
  function Selection(rows: seq<AdminToken>, ident: string): set<nat> {
    set i | 0 <= i < |rows| && ToRevoke(rows[i], ident)
  }

  /** The rows after a revocation writes: it does not look at them again. */
  function Stamped(rows: seq<AdminToken>, ids: set<nat>, at: Time): (r: seq<AdminToken>)
    ensures |r| == |rows|
  {
    seq(|rows|, i requires 0 <= i < |rows| => if i in ids then rows[i].(revokedAt := Some(at)) else rows[i])
  }

  /** The rows after a use writes the count it read, and one. */
  function Noted(rows: seq<AdminToken>, u: Using, at: Time): seq<AdminToken> {
    if u.id >= |rows| then rows
    else rows[u.id := rows[u.id].(useCount := u.count + 1, lastUsedAt := Some(at))]
  }

  /** One step, the n-th. A name of a revocation or use in flight is not taken again, and one that
      is not in flight writes nothing. */
  function After(hash: Hash, s: AdminState, n: nat, step: AdminStep): AdminState {
    match step
    case Issue(name, expiresAt, issuedBy, raw, at) =>
      s.(rows := s.rows + [AdminToken(name, hash(raw), PrefixOf(raw), issuedBy, at, expiresAt, None, 0, None)])
    case Select(revoke, ident, at) =>
      if revoke in s.revokes then s
      else s.(revokes := s.revokes[revoke := Revoking(Selection(s.rows, ident), at, n)])
    case Write(revoke) =>
      if revoke !in s.revokes then s
      else s.(rows := Stamped(s.rows, s.revokes[revoke].ids, s.revokes[revoke].at), revokes := s.revokes - {revoke})
    case Accept(use, raw, at) =>
      if use in s.uses then s
      else
        (match FindValid(hash, s.rows, raw, at)
         case Some(i) => s.(uses := s.uses[use := Using(i, s.rows[i].useCount, n)])
         case None => s)
    case Note(use, at) =>
      if use !in s.uses then s
      else s.(rows := Noted(s.rows, s.uses[use], at), uses := s.uses - {use})
  }

  /** The state after the first n steps, from a table with nothing in flight. */
  function StateAfter(hash: Hash, rows: seq<AdminToken>, run: seq<AdminStep>, n: nat): AdminState
    requires n <= |run|
  {
    if n == 0 then AdminState(rows, map[], map[])
    else After(hash, StateAfter(hash, rows, run, n - 1), n - 1, run[n - 1])
  }

  /** A revocation chooses the unrevoked tokens with this label or this prefix, and no others. */
  lemma SelectExactly(hash: Hash, s: AdminState, n: nat, revoke: nat, ident: string, at: Time, i: nat)
    requires revoke !in s.revokes
    ensures var s' := After(hash, s, n, Select(revoke, ident, at));
            && s'.rows == s.rows && s'.uses == s.uses && revoke in s'.revokes
            && s'.revokes == s.revokes[revoke := s'.revokes[revoke]]
            && s'.revokes[revoke].at == at && s'.revokes[revoke].readAt == n
            && (i in s'.revokes[revoke].ids <==>
                  && i < |s.rows| && s.rows[i].revokedAt == None
                  && (s.rows[i].name == ident || s.rows[i].tokenPrefix == ident))
  {
  }

  /** A revocation that writes gives its time to exactly the tokens it had read, whatever has become of
      them, and is done. */
  lemma WriteExactly(hash: Hash, s: AdminState, n: nat, revoke: nat, i: nat)
    requires revoke in s.revokes && i < |s.rows|
    ensures var s' := After(hash, s, n, Write(revoke));
            var f := s.revokes[revoke];
            && revoke !in s'.revokes && s'.uses == s.uses && |s'.rows| == |s.rows|
            && (i in f.ids ==> s'.rows[i].revokedAt == Some(f.at))
            && (i !in f.ids ==> s'.rows[i].revokedAt == s.rows[i].revokedAt)
            && s'.rows[i] == s.rows[i].(revokedAt := s'.rows[i].revokedAt)
  {
  }

  /** A text is let in exactly when it is the raw token of a row that is unrevoked and unexpired at that
      instant; the use then holds that row and its count. */
  lemma AcceptExactly(hash: Hash, s: AdminState, n: nat, use: nat, raw: string, at: Time, raws: seq<string>, i: nat)
    requires Injective(hash) && TableOk(hash, s.rows, raws) && use !in s.uses
    ensures var s' := After(hash, s, n, Accept(use, raw, at));
            && s'.rows == s.rows && s'.revokes == s.revokes
            && (use in s'.uses && s'.uses[use].id == i <==>
                  && i < |s.rows| && raws[i] == raw && s.rows[i].revokedAt == None && at < s.rows[i].expiresAt)
            && (use in s'.uses ==>
                  && s'.uses[use].id < |s.rows| && s'.uses[use].count == s.rows[s'.uses[use].id].useCount
                  && s'.uses[use].readAt == n && s'.uses == s.uses[use := s'.uses[use]])
  {
    AcceptedExactly(hash, s.rows, raws, raw, at, i);
    var found := FindValid(hash, s.rows, raw, at);
    if found.Some? {
      AcceptedExactly(hash, s.rows, raws, raw, at, found.value);
    }
  }

  /** A use that is written leaves the count it had read, and one, and its time. */
  lemma NoteExactly(hash: Hash, s: AdminState, n: nat, use: nat, at: Time)
    requires use in s.uses && s.uses[use].id < |s.rows|
    ensures var s' := After(hash, s, n, Note(use, at));
            var u := s.uses[use];
            && use !in s'.uses && s'.revokes == s.revokes && |s'.rows| == |s.rows|
            && s'.rows[u.id].useCount == u.count + 1 && s'.rows[u.id].lastUsedAt == Some(at)
            && s'.rows[u.id].revokedAt == s.rows[u.id].revokedAt && SameToken(s'.rows[u.id], s.rows[u.id])
            && forall i :: 0 <= i < |s.rows| && i != u.id ==> s'.rows[i] == s.rows[i]
  {
  }

  /** Whatever is let through is issued by a step. */
  lemma IssueIsAStep(hash: Hash, s: AdminState, n: nat, name: string, ttlHours: int, issuedBy: Option<string>,
                     raw: string, at: Time) returns (step: AdminStep)
    requires NewToken(hash, name, ttlHours, issuedBy, raw, at).Success?
    ensures step.Issue? && step.raw == raw
    ensures After(hash, s, n, step) == s.(rows := s.rows + [NewToken(hash, name, ttlHours, issuedBy, raw, at).value])
  {
    step := Issue(Strip(name), at + ttlHours as real * 3600.0, issuedBy, raw, at);
  }

  // ----- what a step writes ---------------------------------------------------------

  /** The tokens that a step revokes, and the time it gives them. */
  function Marks(s: AdminState, step: AdminStep): set<nat> {
    if step.Write? && step.revoke in s.revokes then s.revokes[step.revoke].ids else {}
  }

  function MarkTime(s: AdminState, step: AdminStep): Time {
    if step.Write? && step.revoke in s.revokes then s.revokes[step.revoke].at else 0.0
  }

  function MarksAt(hash: Hash, rows: seq<AdminToken>, run: seq<AdminStep>, w: nat): set<nat>
    requires w < |run|
  {
    Marks(StateAfter(hash, rows, run, w), run[w])
  }

  function TimeAt(hash: Hash, rows: seq<AdminToken>, run: seq<AdminStep>, w: nat): Time
    requires w < |run|
  {
    MarkTime(StateAfter(hash, rows, run, w), run[w])
  }

  /** What no step changes about a token. */
  predicate SameToken(a: AdminToken, b: AdminToken) {
    a == b.(revokedAt := a.revokedAt, useCount := a.useCount, lastUsedAt := a.lastUsedAt)
  }

  lemma StepKeepsRow(hash: Hash, s: AdminState, n: nat, step: AdminStep, i: nat)
    requires i < |s.rows|
    ensures var s' := After(hash, s, n, step);
            && |s.rows| <= |s'.rows| && SameToken(s'.rows[i], s.rows[i])
            && s'.rows[i].revokedAt == if i in Marks(s, step) then Some(MarkTime(s, step)) else s.rows[i].revokedAt
  {
    hide PrefixOf, FindValid, Selection;
  }

  lemma {:induction false} RowsStay(hash: Hash, rows: seq<AdminToken>, run: seq<AdminStep>, k: nat, n: nat, i: nat)
    requires k <= n <= |run| && i < |StateAfter(hash, rows, run, k).rows|
    ensures var (a, b) := (StateAfter(hash, rows, run, k).rows, StateAfter(hash, rows, run, n).rows);
            |a| <= |b| && SameToken(b[i], a[i])
    decreases n
  {
    hide After;
    if k < n {
      RowsStay(hash, rows, run, k, n - 1, i);
      StepKeepsRow(hash, StateAfter(hash, rows, run, n - 1), n - 1, run[n - 1], i);
    }
  }

  function RevokedAt(hash: Hash, rows: seq<AdminToken>, run: seq<AdminStep>, n: nat, i: nat): Option<Time>
    requires n <= |run|
  {
    var later := StateAfter(hash, rows, run, n).rows;
    if i < |later| then later[i].revokedAt else None
  }

  lemma RevokedNext(hash: Hash, rows: seq<AdminToken>, run: seq<AdminStep>, n: nat, i: nat)
    requires n < |run| && i < |StateAfter(hash, rows, run, n).rows|
    ensures RevokedAt(hash, rows, run, n + 1, i) ==
              if i in MarksAt(hash, rows, run, n) then Some(TimeAt(hash, rows, run, n))
              else RevokedAt(hash, rows, run, n, i)
  {
    hide After;
    StepKeepsRow(hash, StateAfter(hash, rows, run, n), n, run[n], i);
  }

  // ----- revoked is revoked ---------------------------------------------------------

  /** A token is revoked exactly when it was before or a revocation that had read it has written
      since. */
  lemma {:induction false} RevokedExactly(hash: Hash, rows: seq<AdminToken>, run: seq<AdminStep>, k: nat, n: nat,
                                          i: nat)
    requires k <= n <= |run| && i < |StateAfter(hash, rows, run, k).rows|
    ensures RevokedAt(hash, rows, run, n, i).Some? <==>
              || RevokedAt(hash, rows, run, k, i).Some?
              || exists w :: k <= w < n && i in MarksAt(hash, rows, run, w)
    decreases n
  {
    hide StateAfter, MarksAt, RevokedAt, TimeAt;
    if k < n {
      RevokedExactly(hash, rows, run, k, n - 1, i);
      RowsStay(hash, rows, run, k, n - 1, i);
      RevokedNext(hash, rows, run, n - 1, i);
    }
  }

  /** A revocation time stays what it is exactly when every revocation that had read the token and
      writes later gives it the same time. */
  lemma TimeStaysExactly(hash: Hash, rows: seq<AdminToken>, run: seq<AdminStep>, k: nat, n: nat, i: nat)
    requires k <= n <= |run| && RevokedAt(hash, rows, run, k, i).Some?
    ensures (forall m :: k <= m <= n ==> RevokedAt(hash, rows, run, m, i) == RevokedAt(hash, rows, run, k, i)) <==>
            (forall w :: k <= w < n && i in MarksAt(hash, rows, run, w) ==>
                       Some(TimeAt(hash, rows, run, w)) == RevokedAt(hash, rows, run, k, i))
  {
    hide StateAfter, MarksAt, TimeAt;
    forall w | k <= w < n
      ensures RevokedAt(hash, rows, run, w + 1, i) ==
                if i in MarksAt(hash, rows, run, w) then Some(TimeAt(hash, rows, run, w))
                else RevokedAt(hash, rows, run, w, i)
    {
      RowsStay(hash, rows, run, k, w, i);
      RevokedNext(hash, rows, run, w, i);
    }
    if forall w :: k <= w < n && i in MarksAt(hash, rows, run, w) ==>
        Some(TimeAt(hash, rows, run, w)) == RevokedAt(hash, rows, run, k, i) {
      forall m | k <= m <= n ensures RevokedAt(hash, rows, run, m, i) == RevokedAt(hash, rows, run, k, i) {
        TimeStays(hash, rows, run, k, m, i);
      }
    } else {
      var w :| k <= w < n && i in MarksAt(hash, rows, run, w)
            && Some(TimeAt(hash, rows, run, w)) != RevokedAt(hash, rows, run, k, i);
      assert RevokedAt(hash, rows, run, w + 1, i) != RevokedAt(hash, rows, run, k, i);
    }
  }

  lemma {:induction false} TimeStays(hash: Hash, rows: seq<AdminToken>, run: seq<AdminStep>, k: nat, n: nat, i: nat)
    requires k <= n <= |run| && RevokedAt(hash, rows, run, k, i).Some?
    requires forall w :: k <= w < n && i in MarksAt(hash, rows, run, w) ==>
               Some(TimeAt(hash, rows, run, w)) == RevokedAt(hash, rows, run, k, i)
    ensures RevokedAt(hash, rows, run, n, i) == RevokedAt(hash, rows, run, k, i)
    decreases n
  {
    hide StateAfter, MarksAt, TimeAt;
    if k < n {
      TimeStays(hash, rows, run, k, n - 1, i);
      RowsStay(hash, rows, run, k, n - 1, i);
      RevokedNext(hash, rows, run, n - 1, i);
    }
  }

  // ----- what is in flight ----------------------------------------------------------

  /** A revocation in flight holds what it read: rows that were there, and unrevoked, at that step. */
  ghost predicate ReadBefore(hash: Hash, rows: seq<AdminToken>, run: seq<AdminStep>, n: nat, f: Revoking)
    requires n <= |run|
  {
    && f.readAt < n && run[f.readAt].Select?
    && f.ids == Selection(StateAfter(hash, rows, run, f.readAt).rows, run[f.readAt].ident)
    && f.at == run[f.readAt].at
  }

  lemma {:induction false} FlightsRead(hash: Hash, rows: seq<AdminToken>, run: seq<AdminStep>, n: nat, revoke: nat)
    requires n <= |run| && revoke in StateAfter(hash, rows, run, n).revokes
    ensures ReadBefore(hash, rows, run, n, StateAfter(hash, rows, run, n).revokes[revoke])
    decreases n
  {
    hide Selection, Stamped, Noted, FindValid;
    var s := StateAfter(hash, rows, run, n - 1);
    if revoke in s.revokes {
      FlightsRead(hash, rows, run, n - 1, revoke);
    }
  }

  /** What a step revokes had been read, unrevoked, by the revocation that writes. */
  lemma MarkedWereRead(hash: Hash, rows: seq<AdminToken>, run: seq<AdminStep>, w: nat, i: nat) returns (j: nat)
    requires w < |run| && i in MarksAt(hash, rows, run, w)
    ensures j < w && run[j].Select? && TimeAt(hash, rows, run, w) == run[j].at
    ensures j == StateAfter(hash, rows, run, w).revokes[run[w].revoke].readAt
    ensures var read := StateAfter(hash, rows, run, j).rows; i < |read| && ToRevoke(read[i], run[j].ident)
  {
    hide StateAfter;
    FlightsRead(hash, rows, run, w, run[w].revoke);
    j := StateAfter(hash, rows, run, w).revokes[run[w].revoke].readAt;
  }

  /** A revocation that writes to a token after it was revoked had read it before. */
  lemma LateWriteReadEarlier(hash: Hash, rows: seq<AdminToken>, run: seq<AdminStep>, k: nat, w: nat, i: nat)
    requires k <= w < |run| && RevokedAt(hash, rows, run, k, i).Some? && i in MarksAt(hash, rows, run, w)
    ensures var j := StateAfter(hash, rows, run, w).revokes[run[w].revoke].readAt;
            j < k && run[j].Select? && RevokedAt(hash, rows, run, j, i).None?
  {
    hide StateAfter;
    var j := MarkedWereRead(hash, rows, run, w, i);
    if k <= j {
      RevokedExactly(hash, rows, run, k, j, i);
    }
  }
}

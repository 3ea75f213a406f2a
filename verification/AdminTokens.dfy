/** Admin fetch tokens: issue, look up, revoke and list. */
module AdminTokens {
  import opened Wrappers
  import opened Text
  import opened RateLimit
  import opened RequestChecks
  import opened Database
  import opened RouterTokens

  /** A row of `admin_fetch_tokens`; its id is its position, `name` its label. */
  datatype AdminToken = AdminToken(name: string, tokenHash: string, tokenPrefix: string, issuedBy: Option<string>,
                                   createdAt: Time, expiresAt: Time, revokedAt: Option<Time>,
                                   useCount: nat, lastUsedAt: Option<Time>)

  predicate Live(row: AdminToken, now: Time) {
    row.revokedAt.None? && row.expiresAt > now
  }

  // ----- operations on the table ----------------------------------------------------

  datatype IssueError = BadTtl | NoLabel

  function NewToken(hash: Hash, name: string, ttlHours: int, issuedBy: Option<string>, raw: string, now: Time)
      : Result<AdminToken, IssueError> {
    if ttlHours <= 0 then Failure(BadTtl)
    else if Strip(name) == "" then Failure(NoLabel)
    else Success(AdminToken(Strip(name), hash(raw), PrefixOf(raw), issuedBy,
                            now, now + ttlHours as real * 3600.0, None, 0, None))
  }

  /** A row just issued, field by field: it expires after so many hours of 3600 seconds. */
  predicate IssuedRow(row: AdminToken, hash: Hash, name: string, ttlHours: int, issuedBy: Option<string>, raw: string,
                      now: Time) {
    && row.name == Strip(name) && row.tokenHash == hash(raw)
    && row.tokenPrefix == (if |raw| < 8 then raw else raw[..8]) && row.issuedBy == issuedBy
    && row.createdAt == now && row.expiresAt - now == (ttlHours * 60 * 60) as real
    && row.revokedAt == None && row.useCount == 0 && row.lastUsedAt == None
  }

  lemma IssueChecksExactly(hash: Hash, name: string, ttlHours: int, issuedBy: Option<string>, raw: string, now: Time)
    ensures var r := NewToken(hash, name, ttlHours, issuedBy, raw, now);
            && (r.Success? <==> 0 < ttlHours && Strip(name) != "")
            && (r == Failure(BadTtl) <==> ttlHours <= 0)
  {
  }

  lemma NewTokenIsIssued(hash: Hash, name: string, ttlHours: int, issuedBy: Option<string>, raw: string, now: Time)
    requires ttlHours > 0 && Strip(name) != ""
    ensures var r := NewToken(hash, name, ttlHours, issuedBy, raw, now);
            && r.Success? && IssuedRow(r.value, hash, name, ttlHours, issuedBy, raw, now)
            && r.value == AdminToken(Strip(name), hash(raw), PrefixOf(raw), issuedBy, now,
                                     now + ttlHours as real * 3600.0, None, 0, None)
  {
    hide Strip;
  }

  predicate Matches(row: AdminToken, ident: string) {
    row.name == ident || row.tokenPrefix == ident
  }

  predicate ToRevoke(row: AdminToken, ident: string) {
    row.revokedAt.None? && Matches(row, ident)
  }

  function RevokeMatching(rows: seq<AdminToken>, ident: string, now: Time): (r: seq<AdminToken>)
    ensures |r| == |rows|
  {
    seq(|rows|, i requires 0 <= i < |rows| =>
      if ToRevoke(rows[i], ident) then rows[i].(revokedAt := Some(now)) else rows[i])
  }

  function Unrevoked(rows: seq<AdminToken>): nat {
    if rows == [] then 0
    else Unrevoked(rows[..|rows| - 1]) + if rows[|rows| - 1].revokedAt.None? then 1 else 0
  }

  /** The lookup of the code: candidates by prefix, then the hash. */
  function FindValid(hash: Hash, rows: seq<AdminToken>, raw: string, now: Time): Option<nat> {
    First(rows, (row: AdminToken) => row.tokenPrefix == PrefixOf(raw) && Live(row, now) && row.tokenHash == hash(raw))
  }

  /** A plain search by hash over the live rows. */
  function ScanLive(hash: Hash, rows: seq<AdminToken>, raw: string, now: Time): Option<nat> {
    First(rows, row => Live(row, now) && row.tokenHash == hash(raw))
  }

  // ----- the listing ----------------------------------------------------------------

  datatype Summary = Summary(id: nat, name: string, prefix: string, issuedBy: Option<string>, expiresAt: Time,
                             revokedAt: Option<Time>, useCount: nat, lastUsedAt: Option<Time>)

  function Summarize(rows: seq<AdminToken>, id: nat): Summary
    requires id < |rows|
  {
    var row := rows[id];
    Summary(id, row.name, row.tokenPrefix, row.issuedBy, row.expiresAt, row.revokedAt, row.useCount, row.lastUsedAt)
  }

  predicate NewestFirst(rows: seq<AdminToken>, ids: seq<nat>) {
    && (forall i :: 0 <= i < |ids| ==> ids[i] < |rows|)
    && forall i, j :: 0 <= i < j < |ids| ==> rows[ids[i]].createdAt >= rows[ids[j]].createdAt
  }

  function InsertId(rows: seq<AdminToken>, ids: seq<nat>, id: nat): (r: seq<nat>)
    requires NewestFirst(rows, ids) && id < |rows|
    ensures NewestFirst(rows, r) && forall x :: x in r <==> x in ids || x == id
  {
    if ids == [] || rows[id].createdAt >= rows[ids[0]].createdAt then
      NewestAhead(rows, id, ids);
      [id] + ids
    else
      assert NewestFirst(rows, ids[1..]);
      var rest := InsertId(rows, ids[1..], id);
      NewestAhead(rows, ids[0], rest);
      [ids[0]] + rest
  }

  lemma NewestAhead(rows: seq<AdminToken>, id: nat, ids: seq<nat>)
    requires NewestFirst(rows, ids) && id < |rows|
    ensures (forall x :: x in ids ==> x < |rows| && rows[id].createdAt >= rows[x].createdAt) ==>
              NewestFirst(rows, [id] + ids)
  {
  }

  /** The ids of the first n rows, newest first. */
  function Ordered(rows: seq<AdminToken>, n: nat): (r: seq<nat>)
    requires n <= |rows|
    ensures NewestFirst(rows, r)
    ensures forall id: nat :: id in r <==> id < n
  {
    if n == 0 then [] else InsertId(rows, Ordered(rows, n - 1), n - 1)
  }

  lemma {:induction false} InsertIdCount(rows: seq<AdminToken>, ids: seq<nat>, id: nat)
    requires NewestFirst(rows, ids) && id < |rows|
    ensures multiset(InsertId(rows, ids, id)) == multiset(ids) + multiset{id}
  {
    if ids != [] && rows[id].createdAt < rows[ids[0]].createdAt {
      InsertIdCount(rows, ids[1..], id);
      assert ids == [ids[0]] + ids[1..];
    }
  }

  /** No id is listed twice. */
  lemma {:induction false} OrderedOnce(rows: seq<AdminToken>, n: nat, id: nat)
    requires n <= |rows|
    ensures multiset(Ordered(rows, n))[id] == if id < n then 1 else 0
  {
    hide NewestFirst, InsertId;
    if n > 0 {
      OrderedOnce(rows, n - 1, id);
      InsertCounts(rows, Ordered(rows, n - 1), n - 1, id);
    }
  }

  lemma InsertCounts(rows: seq<AdminToken>, ids: seq<nat>, x: nat, y: nat)
    requires NewestFirst(rows, ids) && x < |rows|
    ensures multiset(InsertId(rows, ids, x))[y] == multiset(ids)[y] + if x == y then 1 else 0
  {
    InsertIdCount(rows, ids, x);
  }

  /** The summaries of those of the ids that are live, or of all of them. */
  function Shown(rows: seq<AdminToken>, ids: seq<nat>, includeInactive: bool, now: Time): seq<Summary>
    requires forall i :: 0 <= i < |ids| ==> ids[i] < |rows|
  {
    if ids == [] then []
    else
      var n := |ids| - 1;
      var before := Shown(rows, ids[..n], includeInactive, now);
      if Live(rows[ids[n]], now) || includeInactive then before + [Summarize(rows, ids[n])] else before
  }

  function Listing(rows: seq<AdminToken>, includeInactive: bool, now: Time): seq<Summary> {
    Shown(rows, Ordered(rows, |rows|), includeInactive, now)
  }

  // ----- the store, in place --------------------------------------------------------

  class AdminTokenStore {
    var rows: seq<AdminToken>

    constructor ()
      ensures rows == []
    {
      rows := [];
    }

    method Issue(hash: Hash, name: string, ttlHours: int, issuedBy: Option<string>, raw: string, now: Time)
        returns (r: Result<nat, IssueError>)
      modifies this
      ensures r.Success? <==> ttlHours > 0 && Strip(name) != ""
      ensures r.Failure? ==> rows == old(rows) && (r.error == BadTtl <==> ttlHours <= 0)
      ensures r.Success? ==>
                && r.value == |old(rows)|
                && rows == old(rows) + [NewToken(hash, name, ttlHours, issuedBy, raw, now).value]
                && IssuedRow(rows[|old(rows)|], hash, name, ttlHours, issuedBy, raw, now)
    {
      hide NewToken, IssuedRow, Strip, PrefixOf;
      if ttlHours <= 0 {
        return Failure(BadTtl);
      }
      var stripped := Strip(name);
      if stripped == "" {
        return Failure(NoLabel);
      }
      NewTokenIsIssued(hash, name, ttlHours, issuedBy, raw, now);
      var expiresAt := now + ttlHours as real * 3600.0;
      rows := rows + [AdminToken(stripped, hash(raw), PrefixOf(raw), issuedBy, now, expiresAt, None, 0, None)];
      return Success(|rows| - 1);
    }

    method Find(hash: Hash, raw: string, now: Time) returns (found: Option<nat>)
      ensures found == FindValid(hash, rows, raw, now)
    {
      var expected := hash(raw);
      for i := 0 to |rows|
        invariant forall j :: 0 <= j < i ==>
                    !(rows[j].tokenPrefix == PrefixOf(raw) && Live(rows[j], now) && rows[j].tokenHash == expected)
      {
        if rows[i].tokenPrefix == PrefixOf(raw) && Live(rows[i], now) && rows[i].tokenHash == expected {
          return Some(i);
        }
      }
      return None;
    }

    /** Revoke every unrevoked token matching by label or prefix, with nothing in between; the count
        returned is the number of unrevoked tokens lost. */
    method Revoke(ident: string, now: Time) returns (count: nat)
      modifies this
      ensures rows == RevokeMatching(old(rows), ident, now)
      ensures |rows| == |old(rows)| && forall i :: 0 <= i < |rows| ==>
                rows[i] == if old(rows)[i].revokedAt == None
                              && (old(rows)[i].name == ident || old(rows)[i].tokenPrefix == ident)
                           then old(rows)[i].(revokedAt := Some(now)) else old(rows)[i]
      ensures Unrevoked(old(rows)) == Unrevoked(rows) + count
    {
      ghost var before := rows;
      ghost var after := RevokeMatching(before, ident, now);
      count := 0;
      for i := 0 to |rows|
        invariant |rows| == |before|
        invariant rows[..i] == after[..i] && rows[i..] == before[i..]
        invariant Unrevoked(before[..i]) == Unrevoked(after[..i]) + count
      {
        ghost var at := rows;
        assert rows[i] == before[i] by {
          assert rows[i..][0] == before[i..][0];
        }
        if ToRevoke(rows[i], ident) {
          rows := rows[i := rows[i].(revokedAt := Some(now))];
          count := count + 1;
        }
        assert rows[i] == after[i];
        assert rows[..i] == at[..i];
        assert rows[..i + 1] == rows[..i] + [rows[i]];
        assert rows[i + 1..] == at[i..][1..];
        UnrevokedNext(before, i);
        UnrevokedNext(after, i);
      }
      assert rows == rows[..|rows|] && after == after[..|rows|] && before == before[..|rows|];
    }

    method List(includeInactive: bool, now: Time) returns (out: seq<Summary>)
      ensures out == Listing(rows, includeInactive, now)
    {
      var ids := Ordered(rows, |rows|);
      out := [];
      for i := 0 to |ids|
        invariant out == Shown(rows, ids[..i], includeInactive, now)
      {
        assert ids[..i + 1][..i] == ids[..i];
        var active := rows[ids[i]].revokedAt.None? && rows[ids[i]].expiresAt > now;
        if active || includeInactive {
          out := out + [Summarize(rows, ids[i])];
        }
      }
      assert ids[..|ids|] == ids;
    }
  }

  lemma UnrevokedNext(rows: seq<AdminToken>, i: nat)
    requires i < |rows|
    ensures Unrevoked(rows[..i + 1]) == Unrevoked(rows[..i]) + if rows[i].revokedAt.None? then 1 else 0
  {
    assert rows[..i + 1][..i] == rows[..i];
  }

  // ----- invariant of the table -----------------------------------------------------

  /** Row i came from the i-th raw token, and all raw tokens differ. */
  predicate TableOk(hash: Hash, rows: seq<AdminToken>, raws: seq<string>) {
    && |rows| == |raws|
    && (forall i :: 0 <= i < |rows| ==> rows[i].tokenHash == hash(raws[i]) && rows[i].tokenPrefix == PrefixOf(raws[i]))
    && (forall i, j :: 0 <= i < j < |raws| ==> raws[i] != raws[j])
  }

  /** The prefix-filtered lookup finds the row a full scan by hash finds. */
  lemma FindAgreesWithScan(hash: Hash, rows: seq<AdminToken>, raws: seq<string>, raw: string, now: Time)
    requires Injective(hash) && TableOk(hash, rows, raws)
    ensures FindValid(hash, rows, raw, now) == ScanLive(hash, rows, raw, now)
  {
    FirstAgrees(rows,
                (row: AdminToken) => row.tokenPrefix == PrefixOf(raw) && Live(row, now) && row.tokenHash == hash(raw),
                row => Live(row, now) && row.tokenHash == hash(raw));
  }

  /** A presented text is accepted as row i exactly when it is the raw token of row i and row i is
      live at that instant. */
  lemma AcceptedExactly(hash: Hash, rows: seq<AdminToken>, raws: seq<string>, raw: string, now: Time, i: nat)
    requires Injective(hash) && TableOk(hash, rows, raws)
    ensures FindValid(hash, rows, raw, now) == Some(i) <==> i < |rows| && raw == raws[i] && Live(rows[i], now)
  {
  }

  // ----- listing against lookup -----------------------------------------------------

  lemma {:induction false} ShownExactly(rows: seq<AdminToken>, ids: seq<nat>, includeInactive: bool, now: Time,
                                         x: Summary)
    requires forall i :: 0 <= i < |ids| ==> ids[i] < |rows|
    ensures x in Shown(rows, ids, includeInactive, now) <==>
              x.id in ids && (Live(rows[x.id], now) || includeInactive) && x == Summarize(rows, x.id)
  {
    if ids != [] {
      var n := |ids| - 1;
      ShownExactly(rows, ids[..n], includeInactive, now, x);
      assert ids == ids[..n] + [ids[n]];
    }
  }

  /** At any instant the default listing shows exactly the tokens that the lookup accepts at that
      instant; with inactive ones included it shows every token. */
  lemma ListingIsWhatIsAccepted(hash: Hash, rows: seq<AdminToken>, raws: seq<string>, now: Time, id: nat)
    requires Injective(hash) && TableOk(hash, rows, raws)
    ensures (exists x :: x in Listing(rows, false, now) && x.id == id)
       <==> (exists raw :: FindValid(hash, rows, raw, now) == Some(id))
    ensures (exists x :: x in Listing(rows, true, now) && x.id == id) <==> id < |rows|
  {
    if id < |rows| {
      ShownExactly(rows, Ordered(rows, |rows|), false, now, Summarize(rows, id));
      ShownExactly(rows, Ordered(rows, |rows|), true, now, Summarize(rows, id));
      AcceptedExactly(hash, rows, raws, raws[id], now, id);
    }
    forall x: Summary | x.id == id
      ensures x in Listing(rows, false, now) ==> id < |rows| && Live(rows[id], now)
      ensures x in Listing(rows, true, now) ==> id < |rows|
    {
      ShownExactly(rows, Ordered(rows, |rows|), false, now, x);
      ShownExactly(rows, Ordered(rows, |rows|), true, now, x);
    }
    forall raw | FindValid(hash, rows, raw, now) == Some(id) ensures id < |rows| && Live(rows[id], now) {
      AcceptedExactly(hash, rows, raws, raw, now, id);
    }
  }

  /** What the listing shows of each token, field by field. */
  lemma ListedExactly(rows: seq<AdminToken>, includeInactive: bool, now: Time, x: Summary)
    ensures x in Listing(rows, includeInactive, now) <==>
              && x.id < |rows|
              && (includeInactive || (rows[x.id].revokedAt == None && now < rows[x.id].expiresAt))
              && x.name == rows[x.id].name && x.prefix == rows[x.id].tokenPrefix
              && x.issuedBy == rows[x.id].issuedBy && x.expiresAt == rows[x.id].expiresAt
              && x.revokedAt == rows[x.id].revokedAt && x.useCount == rows[x.id].useCount
              && x.lastUsedAt == rows[x.id].lastUsedAt
  {
    ShownExactly(rows, Ordered(rows, |rows|), includeInactive, now, x);
  }

  /** Summaries of these tokens, newest first. */
  predicate Dated(rows: seq<AdminToken>, ids: seq<nat>, out: seq<Summary>) {
    && (forall i :: 0 <= i < |out| ==> out[i].id in ids && out[i].id < |rows|)
    && forall i, j :: 0 <= i < j < |out| ==> rows[out[i].id].createdAt >= rows[out[j].id].createdAt
  }

  lemma DatedNext(rows: seq<AdminToken>, ids: seq<nat>, n: nat, before: seq<Summary>, x: Summary)
    requires NewestFirst(rows, ids) && n < |ids| && Dated(rows, ids[..n], before) && x.id == ids[n]
    ensures Dated(rows, ids[..n + 1], before) && Dated(rows, ids[..n + 1], before + [x])
  {
    assert ids[..n + 1] == ids[..n] + [ids[n]];
    forall i | 0 <= i < |before| ensures rows[before[i].id].createdAt >= rows[ids[n]].createdAt {
      var k :| 0 <= k < n && ids[..n][k] == before[i].id;
      assert ids[k] == before[i].id;
    }
  }

  lemma {:induction false} ShownInOrder(rows: seq<AdminToken>, ids: seq<nat>, n: nat, includeInactive: bool, now: Time)
    requires NewestFirst(rows, ids) && n <= |ids|
    ensures Dated(rows, ids[..n], Shown(rows, ids[..n], includeInactive, now))
    decreases n
  {
    if n > 0 {
      ShownInOrder(rows, ids, n - 1, includeInactive, now);
      assert ids[..n][..n - 1] == ids[..n - 1];
      var before := Shown(rows, ids[..n - 1], includeInactive, now);
      DatedNext(rows, ids, n - 1, before, Summarize(rows, ids[n - 1]));
    }
  }

  /** Tokens are listed newest first. */
  lemma ListedNewestFirst(rows: seq<AdminToken>, includeInactive: bool, now: Time, i: nat, j: nat)
    requires i < j < |Listing(rows, includeInactive, now)|
    ensures var out := Listing(rows, includeInactive, now);
            && out[i].id < |rows| && out[j].id < |rows|
            && rows[out[i].id].createdAt >= rows[out[j].id].createdAt
  {
    var ids := Ordered(rows, |rows|);
    ShownInOrder(rows, ids, |ids|, includeInactive, now);
    assert ids[..|ids|] == ids;
  }

  /** An issued token is accepted for exactly as many hours as was asked, while it is not revoked. */
  lemma IssuedIsAcceptedFor(hash: Hash, rows: seq<AdminToken>, raws: seq<string>, name: string, ttlHours: int,
                            issuedBy: Option<string>, raw: string, now: Time, later: Time)
    requires Injective(hash) && TableOk(hash, rows, raws) && raw !in raws
    requires NewToken(hash, name, ttlHours, issuedBy, raw, now).Success?
    ensures var after := rows + [NewToken(hash, name, ttlHours, issuedBy, raw, now).value];
            FindValid(hash, after, raw, later) == Some(|rows|) <==> later < now + 3600.0 * ttlHours as real
  {
    hide Strip, PrefixOf;
    var after := rows + [NewToken(hash, name, ttlHours, issuedBy, raw, now).value];
    assert TableOk(hash, after, raws + [raw]);
    AcceptedExactly(hash, after, raws + [raw], raw, later, |rows|);
  }

  // ----- one revocation -------------------------------------------------------------

  /** A revocation writes the time to the unrevoked tokens with this label or this prefix, and
      leaves every other one, and every earlier revocation, as it was. */
  lemma RevokeIsPrecise(rows: seq<AdminToken>, ident: string, now: Time, i: nat)
    requires i < |rows|
    ensures var after := RevokeMatching(rows, ident, now)[i];
            && after.revokedAt == (if rows[i].revokedAt == None
                                      && (rows[i].name == ident || rows[i].tokenPrefix == ident)
                                   then Some(now) else rows[i].revokedAt)
            && after == rows[i].(revokedAt := after.revokedAt)
  {
  }
}

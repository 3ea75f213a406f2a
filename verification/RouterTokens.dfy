/** Looking up a telemetry token: by prefix index, then by hash. */
module RouterTokens {
  import opened Wrappers
  import opened Database
  import opened RequestChecks

  /** The position of the first row with a property. */
  function First<T>(rows: seq<T>, p: T -> bool): (r: Option<nat>)
    ensures r.Some? ==> r.value < |rows| && p(rows[r.value])
    ensures forall i :: 0 <= i < |rows| && (r.Some? ==> i < r.value) ==> !p(rows[i])
    decreases |rows|
  {
    if rows == [] then None
    else if p(rows[|rows| - 1]) && First(rows[..|rows| - 1], p).None? then Some(|rows| - 1)
    else First(rows[..|rows| - 1], p)
  }

  lemma FirstAgrees<T>(rows: seq<T>, p: T -> bool, q: T -> bool)
    requires forall i :: 0 <= i < |rows| ==> p(rows[i]) == q(rows[i])
    ensures First(rows, p) == First(rows, q)
  {
    var i, j := First(rows, p), First(rows, q);
    if i.Some? {
      assert q(rows[i.value]);
    }
    if j.Some? {
      assert p(rows[j.value]);
    }
  }

  /** A plain search over all unrevoked rows by hash. */
  predicate Hit(hash: Hash, row: TokenRow, raw: string) {
    row.revokedAt.None? && row.tokenHash == hash(raw)
  }

  function FullScan(hash: Hash, rows: seq<TokenRow>, raw: string): Option<nat> {
    First(rows, row => Hit(hash, row, raw))
  }

  /** The indexed candidates: unrevoked rows with the prefix of the presented token. */
  predicate Candidate(row: TokenRow, raw: string) {
    row.tokenPrefix == PrefixOf(raw) && row.revokedAt.None?
  }

  /** The lookup of the code: nothing for short input, else the first candidate with the hash. */
  function IndexedLookup(hash: Hash, rows: seq<TokenRow>, raw: string): Option<nat> {
    if |raw| < PREFIX_LEN then None
    else First(rows, row => Candidate(row, raw) && row.tokenHash == hash(raw))
  }

  /** Text of fewer than eight characters is no token. */
  lemma ShortIsNoToken(hash: Hash, rows: seq<TokenRow>, raw: string)
    requires |raw| < 8
    ensures IndexedLookup(hash, rows, raw) == None
  {
  }

  method FindValidRouterToken(hash: Hash, rows: seq<TokenRow>, raw: string) returns (found: Option<nat>)
    ensures found == IndexedLookup(hash, rows, raw)
  {
    if |raw| < PREFIX_LEN {
      return None;
    }
    var expected := hash(raw);
    for i := 0 to |rows|
      invariant forall j :: 0 <= j < i ==> !(Candidate(rows[j], raw) && rows[j].tokenHash == expected)
    {
      if Candidate(rows[i], raw) && rows[i].tokenHash == expected {
        return Some(i);
      }
    }
    return None;
  }

  /** Prefix and hash of a row come from one raw token, which is at least as long as a prefix. */
  ghost predicate FromOneToken(hash: Hash, row: TokenRow) {
    exists raw :: |raw| >= PREFIX_LEN && row.tokenHash == hash(raw) && row.tokenPrefix == PrefixOf(raw)
  }

  /** Under the table invariant the indexed lookup, with its early return on short input, finds
      the very row a full scan by hash finds, and nothing exactly when the scan finds nothing. */
  lemma IndexAgreesWithScan(hash: Hash, rows: seq<TokenRow>, raw: string)
    requires Injective(hash)
    requires forall i :: 0 <= i < |rows| ==> FromOneToken(hash, rows[i])
    ensures IndexedLookup(hash, rows, raw) == FullScan(hash, rows, raw)
  {
    forall i | 0 <= i < |rows| && Hit(hash, rows[i], raw)
      ensures Candidate(rows[i], raw) && |raw| >= PREFIX_LEN
    {
      assert FromOneToken(hash, rows[i]);
    }
    if |raw| >= PREFIX_LEN {
      FirstAgrees(rows, row => Hit(hash, row, raw), row => Candidate(row, raw) && row.tokenHash == hash(raw));
    }
  }
}

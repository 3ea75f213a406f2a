/** From the router table to the peers of the configuration file. */
module Peers {
  import opened Wrappers
  import opened Inet
  import opened Database
  import opened WgConfig

  /** The rows that the peer query selects. */
  predicate Listed(row: RouterRow) {
    row.status == Active && row.publicKey.Some? && row.overlayIp.Some?
  }

  predicate AllListed(rows: seq<RouterRow>) {
    forall i :: 0 <= i < |rows| ==> Listed(rows[i])
  }

  predicate Ascending(rows: seq<RouterRow>)
    requires AllListed(rows)
  {
    forall i, j :: 0 <= i < j < |rows| ==> rows[i].overlayIp.value <= rows[j].overlayIp.value
  }

  predicate StrictlyAscending(rows: seq<RouterRow>)
    requires AllListed(rows)
  {
    forall i, j :: 0 <= i < j < |rows| ==> rows[i].overlayIp.value < rows[j].overlayIp.value
  }

  function Insert(rows: seq<RouterRow>, row: RouterRow): (r: seq<RouterRow>)
    requires AllListed(rows) && Ascending(rows) && Listed(row)
    ensures AllListed(r) && Ascending(r)
    ensures multiset(r) == multiset(rows) + multiset{row}
  {
    if rows == [] || row.overlayIp.value <= rows[0].overlayIp.value then
      [row] + rows
    else
      var rest := Insert(rows[1..], row);
      InsertedAbove(rows, row, rest);
      [rows[0]] + rest
  }

  lemma InsertedAbove(rows: seq<RouterRow>, row: RouterRow, rest: seq<RouterRow>)
    requires rows != [] && AllListed(rows) && Ascending(rows) && Listed(row) && AllListed(rest)
    requires rows[0].overlayIp.value < row.overlayIp.value
    requires multiset(rest) == multiset(rows[1..]) + multiset{row}
    ensures forall i :: 0 <= i < |rest| ==> rows[0].overlayIp.value <= rest[i].overlayIp.value
    ensures multiset([rows[0]] + rest) == multiset(rows) + multiset{row}
  {
    assert rows == [rows[0]] + rows[1..];
    forall i | 0 <= i < |rest| ensures rows[0].overlayIp.value <= rest[i].overlayIp.value {
      assert rest[i] in multiset(rest);
      assert rest[i] == row || rest[i] in rows[1..];
    }
  }

  function ListedRows(rows: seq<RouterRow>): (r: multiset<RouterRow>)
    ensures forall row :: row in r <==> row in rows && Listed(row)
  {
    if rows == [] then multiset{}
    else
      var last := rows[|rows| - 1];
      assert rows == rows[..|rows| - 1] + [last];
      ListedRows(rows[..|rows| - 1]) + if Listed(last) then multiset{last} else multiset{}
  }

  /** The selected rows in the order of their addresses. */
  function SelectActive(rows: seq<RouterRow>): (r: seq<RouterRow>)
    ensures AllListed(r) && Ascending(r)
    ensures multiset(r) == ListedRows(rows)
  {
    if rows == [] then []
    else
      var before := SelectActive(rows[..|rows| - 1]);
      var last := rows[|rows| - 1];
      if Listed(last) then Insert(before, last) else before
  }

  function PeerOf(row: RouterRow): PeerRow
    requires Listed(row)
  {
    PeerRow(row.identity, row.publicKey.value, Dotted(row.overlayIp.value))
  }

  function PeersOf(rows: seq<RouterRow>): (r: seq<PeerRow>)
    requires AllListed(rows)
    ensures |r| == |rows|
  {
    seq(|rows|, i requires 0 <= i < |rows| => PeerOf(rows[i]))
  }

  /** What `_fetch_active_peers` returns. */
  function ActivePeers(rows: seq<RouterRow>): seq<PeerRow> {
    PeersOf(SelectActive(rows))
  }

  /** The peer of an active router with a key and an address. */
  predicate Shows(p: PeerRow, row: RouterRow) {
    && row.status == Active && row.publicKey == Some(p.publicKey) && row.identity == p.identity
    && row.overlayIp.Some? && Dotted(row.overlayIp.value) == p.overlayIp
  }

  /** The peers are those of the active routers that have a key and an address, and no others. */
  lemma ActivePeersExactly(rows: seq<RouterRow>, p: PeerRow)
    ensures p in ActivePeers(rows) <==> exists i :: 0 <= i < |rows| && Shows(p, rows[i])
  {
    if p in ActivePeers(rows) {
      var i :| 0 <= i < |ActivePeers(rows)| && ActivePeers(rows)[i] == p;
      SelectedIsListed(rows, i);
      var r :| 0 <= r < |rows| && rows[r] == SelectActive(rows)[i];
      assert Shows(p, rows[r]);
    }
    if r :| 0 <= r < |rows| && Shows(p, rows[r]) {
      var i := ListedIsSelected(rows, rows[r]);
      assert ActivePeers(rows)[i] == p;
    }
  }

  lemma AllActivePeers(rows: seq<RouterRow>)
    ensures forall p :: p in ActivePeers(rows) <==> exists i :: 0 <= i < |rows| && Shows(p, rows[i])
  {
    hide ActivePeers, Shows;
    forall p ensures p in ActivePeers(rows) <==> exists i :: 0 <= i < |rows| && Shows(p, rows[i]) {
      ActivePeersExactly(rows, p);
    }
  }

  method FetchActivePeers(rows: seq<RouterRow>) returns (peers: seq<PeerRow>)
    ensures peers == ActivePeers(rows)
    ensures forall p :: p in peers <==> exists i :: 0 <= i < |rows| && Shows(p, rows[i])
  {
    hide Shows, Listed, PeerOf, Ascending;
    AllActivePeers(rows);
    var selected := SelectActive(rows);
    peers := [];
    for i := 0 to |selected|
      invariant peers == PeersOf(selected)[..i]
    {
      peers := peers + [PeerOf(selected[i])];
    }
  }

  // ----- what is selected -----------------------------------------------------------

  lemma SelectedIsListed(rows: seq<RouterRow>, i: nat)
    requires i < |SelectActive(rows)|
    ensures SelectActive(rows)[i] in rows && Listed(SelectActive(rows)[i])
  {
    assert SelectActive(rows)[i] in multiset(SelectActive(rows));
  }

  lemma ListedIsSelected(rows: seq<RouterRow>, row: RouterRow) returns (i: nat)
    requires row in rows && Listed(row)
    ensures i < |SelectActive(rows)| && SelectActive(rows)[i] == row
  {
    assert row in multiset(SelectActive(rows));
    i :| 0 <= i < |SelectActive(rows)| && SelectActive(rows)[i] == row;
  }

  lemma {:induction false} ListedOnce(rows: seq<RouterRow>, row: RouterRow)
    requires UniqueRows(rows)
    ensures ListedRows(rows)[row] <= 1
  {
    if rows != [] {
      var init, last := rows[..|rows| - 1], rows[|rows| - 1];
      ListedOnce(init, row);
      LastIsNew(rows);
    }
  }

  lemma LastIsNew(rows: seq<RouterRow>)
    requires rows != [] && UniqueRows(rows)
    ensures rows[|rows| - 1] !in rows[..|rows| - 1]
  {
    var init, last := rows[..|rows| - 1], rows[|rows| - 1];
    forall i | 0 <= i < |init| ensures init[i] != last {
      assert !Clash(rows[i], rows[|rows| - 1]);
    }
  }

  lemma RepeatedInMultiset(rows: seq<RouterRow>, i: nat, j: nat)
    requires i < j < |rows| && rows[i] == rows[j]
    ensures multiset(rows)[rows[i]] >= 2
  {
    assert rows == rows[..j] + [rows[j]] + rows[j + 1..];
    assert rows[i] in rows[..j];
  }

  lemma AscendingDistinct(r: seq<RouterRow>)
    requires AllListed(r) && Ascending(r)
    requires forall i, j :: 0 <= i < j < |r| ==> r[i].overlayIp != r[j].overlayIp
    ensures StrictlyAscending(r)
  {
  }

  /** With the UNIQUE constraints in force, peers strictly increase by address; so every listed
      router has exactly one stanza and the allowed addresses are pairwise disjoint. */
  lemma PeersStrictlyAscend(rows: seq<RouterRow>)
    requires UniqueRows(rows)
    ensures StrictlyAscending(SelectActive(rows))
  {
    var r := SelectActive(rows);
    forall i, j | 0 <= i < j < |r| ensures r[i].overlayIp != r[j].overlayIp {
      SelectedDiffer(rows, i, j);
    }
    AscendingDistinct(r);
  }

  /** The address of one peer is lower than that of another. */
  ghost predicate Below(p: PeerRow, q: PeerRow) {
    exists a: Address, b: Address :: a < b && p.overlayIp == Dotted(a) && q.overlayIp == Dotted(b)
  }

  lemma PeersInOrder(rows: seq<RouterRow>)
    requires UniqueRows(rows)
    ensures forall i, j :: 0 <= i < j < |ActivePeers(rows)| ==> Below(ActivePeers(rows)[i], ActivePeers(rows)[j])
  {
    PeersStrictlyAscend(rows);
    var r := SelectActive(rows);
    forall i, j | 0 <= i < j < |r| ensures Below(ActivePeers(rows)[i], ActivePeers(rows)[j]) {
      assert ActivePeers(rows)[i].overlayIp == Dotted(r[i].overlayIp.value);
      assert ActivePeers(rows)[j].overlayIp == Dotted(r[j].overlayIp.value);
    }
  }

  lemma SameAddressSameRow(rows: seq<RouterRow>, a: RouterRow, b: RouterRow)
    requires UniqueRows(rows) && a in rows && b in rows && a.overlayIp.Some? && a.overlayIp == b.overlayIp
    ensures a == b
  {
    var k :| 0 <= k < |rows| && rows[k] == a;
    var l :| 0 <= l < |rows| && rows[l] == b;
  }

  lemma SelectedDiffer(rows: seq<RouterRow>, i: nat, j: nat)
    requires UniqueRows(rows) && i < j < |SelectActive(rows)|
    ensures SelectActive(rows)[i].overlayIp != SelectActive(rows)[j].overlayIp
  {
    var r := SelectActive(rows);
    SelectedIsListed(rows, i);
    SelectedIsListed(rows, j);
    ListedOnce(rows, r[i]);
    if r[i] == r[j] {
      RepeatedInMultiset(r, i, j);
    } else if r[i].overlayIp == r[j].overlayIp {
      SameAddressSameRow(rows, r[i], r[j]);
    }
  }

  lemma ExactlyOneStanza(rows: seq<RouterRow>, row: RouterRow) returns (i: nat)
    requires UniqueRows(rows) && row in rows
    requires row.status == Active && row.publicKey.Some? && row.overlayIp.Some?
    ensures i < |ActivePeers(rows)| && Shows(ActivePeers(rows)[i], row)
    ensures forall j :: 0 <= j < |ActivePeers(rows)| && j != i ==>
              ActivePeers(rows)[j].overlayIp != Dotted(row.overlayIp.value)
  {
    i := ListedIsSelected(rows, row);
    PeersStrictlyAscend(rows);
    var r := SelectActive(rows);
    forall j | 0 <= j < |r| && j != i ensures ActivePeers(rows)[j].overlayIp != PeerOf(row).overlayIp {
      if ActivePeers(rows)[j].overlayIp == PeerOf(row).overlayIp {
        DottedInjective(r[j].overlayIp.value, row.overlayIp.value);
      }
    }
  }

  /** A peer of a router with the given address comes from a row with that address. */
  lemma PeerHasRow(rows: seq<RouterRow>, peer: PeerRow, ip: Address) returns (row: RouterRow)
    requires peer in ActivePeers(rows) && peer.overlayIp == Dotted(ip)
    ensures row in rows && Listed(row) && row.overlayIp == Some(ip) && PeerOf(row) == peer
  {
    var i :| 0 <= i < |ActivePeers(rows)| && ActivePeers(rows)[i] == peer;
    row := SelectActive(rows)[i];
    SelectedIsListed(rows, i);
    DottedInjective(row.overlayIp.value, ip);
  }

  // ----- order of the table does not matter -----------------------------------------

  lemma {:induction false} AscendingUnique(a: seq<RouterRow>, b: seq<RouterRow>)
    requires AllListed(a) && AllListed(b) && StrictlyAscending(a) && StrictlyAscending(b)
    requires forall row :: row in a <==> row in b
    ensures a == b
    decreases |a|
  {
    if a == [] {
      if b != [] {
        HeadIsIn(b);
      }
    } else {
      assert a[0] in b && b != [];
      assert b[0] in a;
      FirstIsLeast(a, b[0]);
      FirstIsLeast(b, a[0]);
      var i :| 0 <= i < |b| && b[i] == a[0];
      assert i == 0;
      forall row ensures row in a[1..] <==> row in b[1..] {
        TailWithoutHead(a, row);
        TailWithoutHead(b, row);
      }
      AscendingUnique(a[1..], b[1..]);
      assert a == [a[0]] + a[1..] && b == [b[0]] + b[1..];
    }
  }

  lemma HeadIsIn(rows: seq<RouterRow>)
    requires rows != []
    ensures rows[0] in rows
  {
  }

  lemma FirstIsLeast(rows: seq<RouterRow>, row: RouterRow)
    requires AllListed(rows) && StrictlyAscending(rows) && row in rows
    ensures Listed(row) && rows[0].overlayIp.value <= row.overlayIp.value
  {
  }

  lemma TailWithoutHead(rows: seq<RouterRow>, row: RouterRow)
    requires AllListed(rows) && StrictlyAscending(rows) && rows != []
    ensures row in rows[1..] <==> row in rows && row != rows[0]
  {
    if row in rows && row != rows[0] {
      var i :| 0 <= i < |rows| && rows[i] == row;
      assert rows[1..][i - 1] == row;
    }
    if row in rows[1..] {
      var i :| 0 <= i < |rows[1..]| && rows[1..][i] == row;
      assert rows[i + 1] == row;
      assert rows[0].overlayIp.value < rows[i + 1].overlayIp.value;
    }
  }

  /** Two tables with the same rows, in whatever order, give the same peers and so the same
      configuration byte for byte. */
  lemma OrderDoesNotMatter(a: seq<RouterRow>, b: seq<RouterRow>)
    requires UniqueRows(a) && UniqueRows(b)
    requires forall row :: row in a <==> row in b
    ensures ActivePeers(a) == ActivePeers(b)
  {
    PeersStrictlyAscend(a);
    PeersStrictlyAscend(b);
    forall row ensures row in SelectActive(a) <==> row in SelectActive(b) {
      assert row in SelectActive(a) <==> row in multiset(SelectActive(a));
      assert row in SelectActive(b) <==> row in multiset(SelectActive(b));
    }
    AscendingUnique(SelectActive(a), SelectActive(b));
  }

  // ----- liveness does not matter ---------------------------------------------------

  /** The same routers to the printer: they differ in times at most. */
  predicate AlikeRow(a: RouterRow, b: RouterRow) {
    b == a.(enrolledAt := b.enrolledAt, lastSeenAt := b.lastSeenAt)
  }

  predicate Alike(a: seq<RouterRow>, b: seq<RouterRow>) {
    |a| == |b| && forall i :: 0 <= i < |a| ==> AlikeRow(a[i], b[i])
  }

  lemma {:induction false} InsertAlike(a: seq<RouterRow>, b: seq<RouterRow>, x: RouterRow, y: RouterRow)
    requires AllListed(a) && Ascending(a) && Listed(x) && AllListed(b) && Ascending(b) && Listed(y)
    requires Alike(a, b) && AlikeRow(x, y)
    ensures Alike(Insert(a, x), Insert(b, y))
  {
    if a != [] && a[0].overlayIp.value < x.overlayIp.value {
      InsertAlike(a[1..], b[1..], x, y);
    }
  }

  lemma {:induction false} SelectAlike(a: seq<RouterRow>, b: seq<RouterRow>)
    requires Alike(a, b)
    ensures Alike(SelectActive(a), SelectActive(b))
  {
    if a != [] {
      var n := |a| - 1;
      SelectAlike(a[..n], b[..n]);
      if Listed(a[n]) {
        InsertAlike(SelectActive(a[..n]), SelectActive(b[..n]), a[n], b[n]);
      }
    }
  }

  /** Heartbeats do not change the configuration. */
  lemma AlikeGiveSamePeers(a: seq<RouterRow>, b: seq<RouterRow>)
    requires Alike(a, b)
    ensures ActivePeers(a) == ActivePeers(b)
  {
    SelectAlike(a, b);
  }
}

/** What the use counts of admin fetch tokens are worth, over whole runs. */
module AdminUses {
  import opened Wrappers
  import opened RateLimit
  import opened RequestChecks
  import opened Database
  import opened AdminTokens
  import opened AdminHistory

  // ----- what uses count ------------------------------------------------------------

  /** The use that a step writes, if it writes one. */
  function NoteAt(hash: Hash, rows: seq<AdminToken>, run: seq<AdminStep>, w: nat): Option<Using>
    requires w < |run|
  {
    var s := StateAfter(hash, rows, run, w);
    if run[w].Note? && run[w].use in s.uses then Some(s.uses[run[w].use]) else None
  }

  predicate NotesToken(hash: Hash, rows: seq<AdminToken>, run: seq<AdminStep>, w: nat, i: nat)
    requires w < |run|
  {
    NoteAt(hash, rows, run, w).Some? && NoteAt(hash, rows, run, w).value.id == i
  }

  function UseCount(hash: Hash, rows: seq<AdminToken>, run: seq<AdminStep>, n: nat, i: nat): nat
    requires n <= |run|
  {
    var later := StateAfter(hash, rows, run, n).rows;
    if i < |later| then later[i].useCount else 0
  }

  /** How many uses of a token were written. */
  function NotesOf(hash: Hash, rows: seq<AdminToken>, run: seq<AdminStep>, n: nat, i: nat): nat
    requires n <= |run|
  {
    if n == 0 then 0
    else NotesOf(hash, rows, run, n - 1, i) + if NotesToken(hash, rows, run, n - 1, i) then 1 else 0
  }

  predicate ReadCount(hash: Hash, rows: seq<AdminToken>, run: seq<AdminStep>, n: nat, u: Using)
    requires n <= |run|
  {
    && u.readAt < n && run[u.readAt].Accept?
    && u.id < |StateAfter(hash, rows, run, u.readAt).rows|
    && u.count == UseCount(hash, rows, run, u.readAt, u.id)
  }

  lemma {:induction false} UsesRead(hash: Hash, rows: seq<AdminToken>, run: seq<AdminStep>, n: nat, use: nat)
    requires n <= |run| && use in StateAfter(hash, rows, run, n).uses
    ensures ReadCount(hash, rows, run, n, StateAfter(hash, rows, run, n).uses[use])
    decreases n
  {
    hide Selection, Stamped, Noted;
    var s := StateAfter(hash, rows, run, n - 1);
    if use in s.uses {
      UsesRead(hash, rows, run, n - 1, use);
    }
  }

  lemma UseCountNext(hash: Hash, rows: seq<AdminToken>, run: seq<AdminStep>, n: nat, i: nat)
    requires n < |run|
    ensures UseCount(hash, rows, run, n + 1, i) ==
              if NotesToken(hash, rows, run, n, i) then NoteAt(hash, rows, run, n).value.count + 1
              else UseCount(hash, rows, run, n, i)
  {
    hide PrefixOf, FindValid, Selection;
    if run[n].Note? && run[n].use in StateAfter(hash, rows, run, n).uses {
      UsesRead(hash, rows, run, n, run[n].use);
      var u := StateAfter(hash, rows, run, n).uses[run[n].use];
      RowsStay(hash, rows, run, u.readAt, n, u.id);
    }
  }

  /** No two uses of the token that were written overlapped: each had read the count after the
      other was written. */
  ghost predicate UsesApart(hash: Hash, rows: seq<AdminToken>, run: seq<AdminStep>, n: nat, i: nat)
    requires n <= |run|
  {
    forall v, w :: 0 <= v < w < n && NotesToken(hash, rows, run, v, i) && NotesToken(hash, rows, run, w, i) ==>
      v < NoteAt(hash, rows, run, w).value.readAt
  }

  lemma {:induction false} NotesGrow(hash: Hash, rows: seq<AdminToken>, run: seq<AdminStep>, r: nat, n: nat, i: nat)
    requires r <= n <= |run|
    ensures NotesOf(hash, rows, run, r, i) <= NotesOf(hash, rows, run, n, i)
    ensures NotesOf(hash, rows, run, r, i) == NotesOf(hash, rows, run, n, i) <==>
              forall v :: r <= v < n ==> !NotesToken(hash, rows, run, v, i)
    decreases n
  {
    hide NotesToken;
    if r < n {
      NotesGrow(hash, rows, run, r, n - 1, i);
    }
  }

  lemma ApartSplits(hash: Hash, rows: seq<AdminToken>, run: seq<AdminStep>, r: nat, n: nat, i: nat)
    requires r <= n < |run| && NotesToken(hash, rows, run, n, i) && NoteAt(hash, rows, run, n).value.readAt == r
    requires run[r].Accept?
    ensures UsesApart(hash, rows, run, n + 1, i) <==>
              UsesApart(hash, rows, run, r, i) && forall v :: r <= v < n ==> !NotesToken(hash, rows, run, v, i)
  {
    hide NoteAt;
  }

  /** The use count of a token never exceeds the uses written, and is as much exactly when no two
      of them overlapped. */
  lemma {:induction false} UseCountExactly(hash: Hash, rows: seq<AdminToken>, run: seq<AdminStep>, n: nat, i: nat)
    requires n <= |run|
    ensures var due := UseCount(hash, rows, run, 0, i) + NotesOf(hash, rows, run, n, i);
            && UseCount(hash, rows, run, n, i) <= due
            && (UseCount(hash, rows, run, n, i) == due <==> UsesApart(hash, rows, run, n, i))
    decreases n
  {
    hide StateAfter, UseCount, NotesToken, NoteAt, UsesApart;
    if n == 0 {
      NoneApart(hash, rows, run, i);
    } else {
      UseCountNext(hash, rows, run, n - 1, i);
      if NotesToken(hash, rows, run, n - 1, i) {
        var r := NoteRead(hash, rows, run, n - 1, i);
        UseCountExactly(hash, rows, run, r, i);
        NotesGrow(hash, rows, run, r, n - 1, i);
        ApartSplits(hash, rows, run, r, n - 1, i);
      } else {
        UseCountExactly(hash, rows, run, n - 1, i);
        ApartNext(hash, rows, run, n - 1, i);
      }
    }
  }

  lemma NoneApart(hash: Hash, rows: seq<AdminToken>, run: seq<AdminStep>, i: nat)
    ensures UsesApart(hash, rows, run, 0, i)
  {
  }

  lemma ApartNext(hash: Hash, rows: seq<AdminToken>, run: seq<AdminStep>, n: nat, i: nat)
    requires n < |run| && !NotesToken(hash, rows, run, n, i)
    ensures UsesApart(hash, rows, run, n + 1, i) <==> UsesApart(hash, rows, run, n, i)
  {
    hide NotesToken, NoteAt;
  }

  lemma NoteRead(hash: Hash, rows: seq<AdminToken>, run: seq<AdminStep>, n: nat, i: nat) returns (r: nat)
    requires n < |run| && NotesToken(hash, rows, run, n, i)
    ensures r < n && run[r].Accept? && r == NoteAt(hash, rows, run, n).value.readAt
    ensures NoteAt(hash, rows, run, n).value.count == UseCount(hash, rows, run, r, i)
  {
    hide StateAfter, UseCount;
    UsesRead(hash, rows, run, n, run[n].use);
    r := NoteAt(hash, rows, run, n).value.readAt;
  }
}

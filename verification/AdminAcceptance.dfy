/** Which admin fetch tokens are accepted, over whole runs: a revoked one never again. */
module AdminAcceptance {
  import opened Wrappers
  import opened RateLimit
  import opened RequestChecks
  import opened Database
  import opened AdminTokens
  import opened AdminHistory

  // ----- the table over a run -------------------------------------------------------

  /** The raw tokens after the first n steps. */
  function RawsAt(raws: seq<string>, run: seq<AdminStep>, n: nat): seq<string>
    requires n <= |run|
  {
    if n == 0 then raws
    else RawsAt(raws, run, n - 1) + if run[n - 1].Issue? then [run[n - 1].raw] else []
  }

  /** Every minted token is new. */
  predicate FreshRun(raws: seq<string>, run: seq<AdminStep>) {
    forall n :: 0 <= n < |run| && run[n].Issue? ==>
      && run[n].raw !in raws
      && forall m :: 0 <= m < n && run[m].Issue? ==> run[m].raw != run[n].raw
  }

  lemma {:induction false} RawsComeFrom(raws: seq<string>, run: seq<AdminStep>, n: nat, raw: string)
    requires n <= |run| && raw in RawsAt(raws, run, n)
    ensures raw in raws || exists m :: 0 <= m < n && run[m].Issue? && run[m].raw == raw
    decreases n
  {
    if n > 0 && raw in RawsAt(raws, run, n - 1) {
      RawsComeFrom(raws, run, n - 1, raw);
    }
  }

  lemma StepKeepsTable(hash: Hash, s: AdminState, n: nat, step: AdminStep, raws: seq<string>)
    requires TableOk(hash, s.rows, raws) && (step.Issue? ==> step.raw !in raws)
    ensures TableOk(hash, After(hash, s, n, step).rows, raws + if step.Issue? then [step.raw] else [])
  {
    hide PrefixOf, FindValid, Selection;
  }

  lemma IssuedIsNew(raws: seq<string>, run: seq<AdminStep>, n: nat)
    requires n < |run| && FreshRun(raws, run) && run[n].Issue?
    ensures run[n].raw !in RawsAt(raws, run, n)
  {
    if run[n].raw in RawsAt(raws, run, n) {
      RawsComeFrom(raws, run, n, run[n].raw);
    }
  }

  lemma {:induction false} TableStays(hash: Hash, rows: seq<AdminToken>, raws: seq<string>, run: seq<AdminStep>, n: nat)
    requires n <= |run| && TableOk(hash, rows, raws) && FreshRun(raws, run)
    ensures TableOk(hash, StateAfter(hash, rows, run, n).rows, RawsAt(raws, run, n))
    decreases n
  {
    hide TableOk, After, FreshRun;
    if n > 0 {
      TableStays(hash, rows, raws, run, n - 1);
      if run[n - 1].Issue? {
        IssuedIsNew(raws, run, n - 1);
      }
      StepKeepsTable(hash, StateAfter(hash, rows, run, n - 1), n - 1, run[n - 1], RawsAt(raws, run, n - 1));
    }
  }

  /** Of a token that was there at some moment: at any later moment, and any time of the clock, its
      raw text is accepted exactly when it has not expired, was not revoked then, and no revocation
      that had read it has written since. */
  lemma AcceptedOverRunsExactly(hash: Hash, rows: seq<AdminToken>, raws: seq<string>, run: seq<AdminStep>,
                                k: nat, n: nat, i: nat, now: Time)
    requires Injective(hash) && TableOk(hash, rows, raws) && FreshRun(raws, run)
    requires k <= n <= |run| && i < |StateAfter(hash, rows, run, k).rows|
    ensures i < |RawsAt(raws, run, n)|
    ensures FindValid(hash, StateAfter(hash, rows, run, n).rows, RawsAt(raws, run, n)[i], now) == Some(i) <==>
              && StateAfter(hash, rows, run, k).rows[i].expiresAt > now
              && RevokedAt(hash, rows, run, k, i).None?
              && forall w :: k <= w < n ==> i !in MarksAt(hash, rows, run, w)
  {
    hide StateAfter, MarksAt, TimeAt, RawsAt, FindValid, FreshRun;
    TableStays(hash, rows, raws, run, n);
    RowsStay(hash, rows, run, k, n, i);
    RevokedExactly(hash, rows, run, k, n, i);
    var later := StateAfter(hash, rows, run, n).rows;
    AcceptedExactly(hash, later, RawsAt(raws, run, n), RawsAt(raws, run, n)[i], now, i);
  }

  /** Once a revocation has written, no token that matched its identifier, by label or by prefix,
      when it read them is ever accepted again: whatever else is in flight, whatever steps follow, and
      whenever it is presented. */
  lemma RevokedForGood(hash: Hash, rows: seq<AdminToken>, raws: seq<string>, run: seq<AdminStep>,
                       w: nat, n: nat, i: nat, now: Time)
    requires Injective(hash) && TableOk(hash, rows, raws) && FreshRun(raws, run)
    requires w < n <= |run| && run[w].Write? && run[w].revoke in StateAfter(hash, rows, run, w).revokes
    requires var j := StateAfter(hash, rows, run, w).revokes[run[w].revoke].readAt;
             j < w && run[j].Select?
             && i < |StateAfter(hash, rows, run, j).rows|
             && var row := StateAfter(hash, rows, run, j).rows[i];
             row.name == run[j].ident || row.tokenPrefix == run[j].ident
    ensures i < |RawsAt(raws, run, n)|
    ensures FindValid(hash, StateAfter(hash, rows, run, n).rows, RawsAt(raws, run, n)[i], now) == None
  {
    hide StateAfter, RawsAt, FindValid, FreshRun;
    FlightsRead(hash, rows, run, w, run[w].revoke);
    var j := StateAfter(hash, rows, run, w).revokes[run[w].revoke].readAt;
    AcceptedOverRunsExactly(hash, rows, raws, run, j, n, i, now);
    assert RevokedAt(hash, rows, run, j, i).Some? || i in MarksAt(hash, rows, run, w);
    TableStays(hash, rows, raws, run, n);
    var later := StateAfter(hash, rows, run, n).rows;
    var found := FindValid(hash, later, RawsAt(raws, run, n)[i], now);
    if found.Some? {
      AcceptedExactly(hash, later, RawsAt(raws, run, n), RawsAt(raws, run, n)[i], now, found.value);
    }
  }
}

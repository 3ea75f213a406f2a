# Verification of the CPE control plane

A Dafny model of the control plane of a fleet of RouterOS routers: enrolment, the overlay network,
the WireGuard configuration file, telemetry tokens and the rate limiter, together with the codecs
they rest on. To verify every file here, run

    dafny verify dfyconfig.toml

Paths below are relative to the root of the repository that is modelled.

## How the model is laid out

* **Text and codecs.** `Text` (strip, split, find, universal newlines, decimal numerals), `Inet`
  (IPv4 addresses in dotted decimal), `KeyCodec` (base64 of sections 3.5 and 4 of RFC 4648, and the
  canonical key check), `Uptime` (the RouterOS uptime grammar), `RequestChecks` (provisioning
  secret, auto-approve rule, Authorization header).
* **The configuration file.** `ManagedText` (a hand-written head above a managed tail, cut at the
  first of two substrings), `WgConfig` (printing wg0.conf and reading its interface block),
  `Verbatim` (when the hand-written part survives the first sync byte for byte), `WgParse` (a wg(8)
  section reader that recovers the peers), `WgNames` (what that reader makes of identities with line
  breaks), `WgFile` (atomic replacement and a whole sync, in place, with a fault at any point).
* **The limiter.** `RateLimit` (bucket objects and the dictionary of them), `RateLimitTraces` (what
  holds of whole traces).
* **Tables.** `Database` (rows, UNIQUE constraints, the two enrolment transactions), `Peers` (the
  active-peer query), `RouterTokens` (index lookup), `AdminTokens` (admin fetch tokens, one operation
  at a time), `AdminHistory` (runs of them, with revocations and uses in flight), `AdminAcceptance`
  (what is accepted in them), `AdminCounts` and `AdminUses` (what is counted), `AdminRuns` (runs that
  overlap), `Telemetry` (the gates of a POST), `InterfacePoints` (the interface measurement), `Overlay` (the allocator).
* **The whole system.** `ControlPlane` is one state machine over the committed tables, the file, the
  limiter and any number of enrolments, syncs and heartbeats in flight. A step is one atomic action
  of one request. An enrolment begins (the gates), looks up its serial, allocates, commits or rolls
  back; a sync fetches peers, reads the interface block, replaces the file and runs the helper; a
  heartbeat charges its source, looks up its token, charges the router, reads its row and writes.
  Any request can fail between its steps, and an administrator can change a status at any time. Each
  read sees the tables committed at its own step, so a run is an arbitrary interleaving with stale
  reads. `Invariant` proves what every step keeps; `AllocationHistory`, `FileHistory`,
  `TokenHistory`, `StatusHistory`, `RequestHistory`, `AnswerHistory`, `HeartbeatHistory`,
  `HeartbeatRefusals` and `LimiterHistory` draw the theorems about whole runs; `EnrolmentRaces` says who wins when enrolments
  overlap; it, `OverlappingSyncs`, `HeartbeatRuns` and `NamesOverRuns` construct the runs in which
  something is rejected, out of date or misread; `AutoEnroll` is the enrolment handler in place, with
  the proof that running it alone is a run of the state machine.

Code that changes things step by step is modelled in place: `RateLimit.TokenBucket`,
`RateLimit.RateLimiter`, `Database.Store`, `WgFile.ConfigDir`, `AdminTokens.AdminTokenStore` and the
handlers `Telemetry.PushTelemetry`, `WgFile.SyncFromDb` and `AutoEnroll.AutoEnroll` are classes and
methods, each proved against a function on values; the lemmas are about those functions.

## Hypotheses

* `Deployed`: the hash has no collisions, the network is a well-formed IPv4 network, and the marker
  is free of line breaks (`WgConfIsValid` proves that of the marker the program uses).
* Clocks do not run backwards; a minted token differs from all earlier ones and is at least eight
  characters long. Both are part of when a step can happen.
* An enrolment charges its two limits and compares its secret in one step. The limits are two
  buckets, and the secrets do not change, so a request that comes in between can as well come before
  or after.
* Revoking the old tokens and minting the new one of a re-enrolment is one atomic transaction: the
  row lock of the router's UPDATE, which always writes `enrolled_at`, orders concurrent re-enrolments
  of one router. What the UPDATE writes, however, is what differs from the row as the lookup read it,
  and `Found` carries that row.
* Admin fetch tokens: issuing one is one write. A revocation and a use are two steps each, a read and
  a write that looks at nothing again; one whose process dies in between never writes.
* Each column that holds text from a request is a parameter (`Columns`): the MACADDR column yields a
  canonical form or rejects, the TEXT columns accept or reject.

## Where the code and its documentation differ

The model follows the code.

* The allocator's documentation says that the enrolment handler retries after a UNIQUE violation.
  The handler does not: the attempt is rolled back (`RolledBack`) and answered with an error. An
  attempt loses exactly when another first enrolment committed since it read its address, or a column
  or another constraint rejects its payload (`FirstEnrolmentWinsExactly`); `LoserIsRejected`
  constructs the run in which one is rejected while there is a free address at which its payload
  could be inserted.
* "About 1022 usable hosts" in the default /22: one of them is the server, so 1021 routers fit
  (`DefaultPool`).
* The interface block is said to be kept verbatim. It is right-stripped and read with universal
  newlines, so the first sync keeps it byte for byte exactly when it holds no carriage return and
  ends in at most two newlines after its last visible character (`KeptExactly`;
  `TrailingSpaceIsLost` and `LineEndsAreLost` are files that are not kept). From the first sync on it
  is always kept (`KeptFromThenOn`).
* The auto-approve pattern ends in `$`, which also matches before one final newline. That is the only
  case in which the rule and its documented form differ (`ApprovalDiffersExactly`,
  `FinalNewlineIsApproved`).
* Routers that are not active are said to stay out of the configuration. They are never among the
  peers that are rendered. An identity with line breaks, however, is written as it is, and can make
  a reader of the file see a peer with a public key and the address of such a router
  (`InactiveIsReadExactly` says exactly when an address is read, `InactiveCanBeRead` constructs the
  run for every accepted key).
* A sync is said to be safe to call redundantly. One after the other, yes (`SyncIsIdempotent`);
  overlapping ones can leave an older configuration in place (`OlderSyncCanWriteLast`).
* A counter that is not a number is said to be skipped. An infinite float is not: `int` raises
  OverflowError, which the builder does not catch (`FailsExactlyOnInfinity`). This concerns the
  builder alone: every numeric field it reads is a declared integer field of the request schema, so
  through the endpoint no infinite float reaches it.
* The limits are documented as ten a minute. A bucket of ten that refills one every six seconds
  grants 10 + t/6 in a window of t seconds, and that bound is tight for windows of every length
  (`WindowBoundIsTight`): twenty requests within one minute (`TwentyInAMinute`).
* A re-enrolment is meant to bring the row up to date. Of two that overlap, the later leaves alone the
  columns in which its payload agrees with the row it had read, so the row can be neither payload
  (`CommittedRowIsPayloadExactly`, `LaterReenrolmentIsMixed`).
* A heartbeat with a superseded token, or of a decommissioned router, is meant to be refused. Both are
  checked at steps of their own, so a heartbeat on its way can still be accepted
  (`SupersededTokenIsHeard`, `DecommissionedIsHeard`; `CurrentExactly` and `WelcomeExactly` say
  exactly when what was checked still holds at the write).
* A revocation of admin tokens is said to return how many it revoked. Of two that overlap, both count
  the tokens that both had read, and the second overwrites the revocation time of the first
  (`CountsAddUpExactly`, `TimeStaysExactly`, `OverlappingRevokes`). What is revoked stays revoked all
  the same (`RevokedForGood`).
* The use count of an admin token is said to serve as an audit record. Overlapping uses lose counts
  (`UseCountExactly`, `OverlappingUses`).

## Model

| member | source | states |
|---|---|---|
| AllocationHistory.GapFree | app/services/wireguard.py:167-197 | After every run, under every interleaving, with n distinct serials committed, the addresses in use are exactly the first n of the pool, router i has address i of it, and addresses are pairwise distinct |
| AllocationHistory.RoutersPersist | app/routers/auto_enroll.py:327-338 | Between any two moments of a run routers stay, with their serial and address, and the history only grows |
| AllocationHistory.AllocationFailsExactly | app/services/wireguard.py:188-197 | In every reachable state allocation raises iff every host but the server's is taken; otherwise it answers the next address of the pool |
| AllocationHistory.FirstEnrolmentCommitsExactly | app/routers/auto_enroll.py:306-325 | A first enrolment commits iff the columns accept its payload, the payload collides with no row (MACs compared as the column reads them) and its address is still the next of the pool; any other attempt changes nothing but its own request |
| AllocationHistory.ReenrolmentCommitsExactly | app/routers/auto_enroll.py:327-351 | A re-enrolment is of the row of its serial and commits iff the columns it writes, those that differ from the row its lookup read, accept their values and no other row holds an identity, MAC or key that it writes; else it changes nothing but its own request |
| AllocationHistory.FirstEnrolmentWrites | app/routers/auto_enroll.py:306-366 | What a first enrolment commits, column by column: the payload's fields, the address, the time; active iff the identity is a line of the form "hAP model - last, first" or one with a newline after it, and pending otherwise; one token with the hash and first eight characters of what was minted; and the answer is about that row, address and token |
| AllocationHistory.ReenrolmentWrites | app/routers/auto_enroll.py:327-366 | What a re-enrolment commits, column by column: what differs from the loaded row is written, the rest, the serial, address and status are kept; its unrevoked tokens get the time of revocation and one is minted; every other row and token is left alone |
| AllocationHistory.InsertableExactly | app/models/router.py:36-58 | The condition of an insert, column by column |
| AllocationHistory.UpdatableExactly | app/models/router.py:36-58 | The condition of an update, column by column |
| AllocationHistory.LookupExactly | app/routers/auto_enroll.py:301-304 | In every reachable state the lookup finds and loads the one row of its serial, or finds that there is none |
| AnswerHistory.ProvisionMeans | app/routers/auto_enroll.py:354-420 | In every run, behind a successful answer are, in this order, the request's own commit, which minted the token answered, its own fetch, its own replacement of the file and its own helper; the file then was the render of that fetch, and it has the router's peer if the router was active |
| EnrolmentRaces.FirstEnrolmentWinsExactly | app/routers/auto_enroll.py:306-325 | Over runs: a first enrolment commits iff no other first enrolment committed between its own allocation and its commit, the columns accept its payload, and it collides with no row |
| EnrolmentRaces.LoserIsRejected | app/services/wireguard.py:167-175 | From every reachable state with two new serials, payloads that could both be enrolled and two addresses left, there is a run in which the second is rejected although its payload can be inserted at the next address, which is free |
| EnrolmentRaces.LaterReenrolmentIsMixed | app/routers/auto_enroll.py:327-338 | From every reachable state with two overlapping re-enrolments of one router, the second keeping the identity that the first changes, there is a run in which the second commits last and the row bears the identity of the first |
| AllocationHistory.RetriesAnswerAlike | app/routers/auto_enroll.py:301-382 | Any two successful answers for one serial, in one run, name the same router and address, whatever failed in between |
| AllocationHistory.StepExtends | app/models/router.py:36-58 | No step removes a router, changes its serial or address, or rewrites the history |
| Invariant.StepInv | app/routers/auto_enroll.py:236-420 | Every step of every request keeps the system invariant: constraints, pool order, token and history agreement, in-flight requests, interface block |
| Invariant.RunInv | app/routers/auto_enroll.py:236-420 | The invariant holds after every run |
| Invariant.InsertTakesNext | app/models/router.py:56-58 | An insert that the UNIQUE constraint lets through takes exactly the next address, however stale the read behind it |
| Invariant.MintKeepsTokens | app/routers/auto_enroll.py:340-362 | Revoke-and-mint keeps: token i came from enrolment i and is revoked iff its router enrolled again since |
| FileHistory.FileIsInitialOrRendered | app/services/wireguard.py:248-270 | At every moment of every run the file is the initial text or one complete render of the original interface block with the active peers of an earlier committed state |
| FileHistory.BlockNeverChanges | app/services/wireguard.py:71-91 | No interleaving of syncs, commits and failures changes the interface block the reader extracts |
| FileHistory.HandWrittenKeptExactly | app/services/wireguard.py:71-91 | From the first write of a run on, the file starts with the hand-written part it had at the start iff that part ends plainly |
| FileHistory.FileMatchesDatabase | app/services/wireguard.py:248-270 | The file matches the database whenever the fetch behind the last write follows the last commit and status change |
| FileHistory.FileIsCurrentExactly | app/services/wireguard.py:248-270 | The file is current iff the peers the last writer fetched are the present ones, for identities without line breaks |
| FileHistory.FileParsesBackExactly | app/services/wireguard.py:46-61 | The written file, read with a wg(8) reader, gives back the peers it was rendered from iff no identity among them has a line break |
| FileHistory.FileShowsRoutersExactly | app/services/wireguard.py:146-164 | With identities of active routers on one line, a wg(8) reader of the written file finds a peer iff some row was active, with that key, that address and that identity, when the last writer fetched |
| FileHistory.HistoryHolds | app/services/wireguard.py:248-270 | At every moment every sync in flight holds exactly the active peers of the committed state at its own fetch, and the file comes from one such fetch or is the initial text |
| OverlappingSyncs.OlderSyncCanWriteLast | app/services/wireguard.py:248-270 | From every reachable state with a file and an inactive router, two overlapping syncs can both write and leave out a router that was made active before the later fetch |
| HeartbeatHistory.HeardExactly | app/routers/telemetry.py:243-301 | In every run a heartbeat is accepted iff its source granted when it arrived, its bearer was the token of the router's latest committed enrolment at its own lookup, the router granted when it was charged, its status permitted it when its row was read, and the write followed |
| HeartbeatHistory.CurrentExactly | app/routers/telemetry.py:254-301 | The accepted bearer is still the router's latest token at the write iff no enrolment of the router has committed since its lookup |
| HeartbeatHistory.WelcomeExactly | app/routers/telemetry.py:277-301 | The accepted router is welcome at the write iff its last status change since its row was read, if there was one, permits it |
| HeartbeatHistory.TouchExactly | app/routers/telemetry.py:299-301 | The write sets when the router was last seen and changes nothing else |
| HeartbeatRefusals.RefusedExactly | app/routers/telemetry.py:243-297 | In every run: 401 iff the POST had no bearer, or its bearer was no latest enrolment's token at its lookup; 429 iff its source was over the limit when it arrived, or the router behind the token when it was charged; 403 iff the router was decommissioned or quarantined when its row was read; no other code, but for a failure |
| RequestHistory.PhaseFrom | app/routers/telemetry.py:236-301 | A request only moves forward: between two moments it is where it was, or further |
| HeartbeatRuns.SupersededTokenIsHeard | app/routers/telemetry.py:254-301 | From every reachable state with an acceptable POST and a re-enrolment of its router about to commit, there is a run in which the POST is accepted with a token that is no longer the router's |
| HeartbeatRuns.DecommissionedIsHeard | app/routers/telemetry.py:277-301 | From every reachable state with an acceptable POST there is a run in which its router is decommissioned after its row was read and the POST is accepted |
| HeartbeatRuns.PushIsARun | app/routers/telemetry.py:236-301 | Running the telemetry handler alone is a run of the state machine with the same tables, buckets and answer |
| TokenHistory.AcceptedByHistory | app/routers/telemetry.py:243-290 | With nothing in between, a POST is accepted for a router iff its bearer is the token of that router's latest committed enrolment, the status is neither decommissioned nor quarantined, and both buckets grant |
| TokenHistory.RefusedByHistory | app/routers/telemetry.py:243-297 | With nothing in between, why a POST is refused: 429 iff the source or the router behind the token is over its limit, 401 iff the header is malformed or no latest enrolment minted the token, 403 iff the router is decommissioned or quarantined |
| TokenHistory.ExactlyOneActiveToken | app/routers/auto_enroll.py:340-366 | In every reachable state a router has exactly one unrevoked token, that of its latest committed enrolment |
| TokenHistory.LookupByHistory | app/services/tokens.py:180-200 | The lookup finds the token of a latest committed enrolment, and no other |
| TokenHistory.NewestTokenHolds | app/routers/auto_enroll.py:354-366 | After a commit the new token, and no other, is the router's |
| StatusHistory.StatusFollowsAdmin | app/routers/auto_enroll.py:322-338 | A router's status is the one it had, or one an administrator set since |
| StatusHistory.SetStatusExactly | app/models/router.py:36-58 | A status change sets the status of its router and changes nothing else |
| StatusHistory.InactiveIsNeverRendered | app/services/wireguard.py:146-154 | A router not active, and not made active since, is not among the peers of a file that were fetched later, whatever it enrols as |
| StatusHistory.InactiveIsReadExactly | app/services/wireguard.py:46-61 | A wg(8) reader of that file finds a peer with its address iff some rendered identity, read on its own, claims the address; identities on one line never do |
| NamesOverRuns.InactiveCanBeRead | app/routers/auto_enroll.py:327-351 | From every reachable state with an active and an inactive router, and for every accepted key, re-enrolling the active one under an identity with line breaks, let through by every check, leads to a file that reads as having one peer with that key and the address of the inactive router |
| AutoEnroll.AutoEnroll | app/routers/auto_enroll.py:236-420 | The handler, in place, ends in the tables, file, buckets and answer of `Enrolled` |
| AutoEnroll.HandlerIsARun | app/routers/auto_enroll.py:236-420 | Running the handler alone is a run of the state machine with the same outcome |
| AutoEnroll.SyncIsARun | app/services/wireguard.py:248-270 | A sync that nothing interleaves with is a run of the state machine that writes the present peers |
| AutoEnroll.EnrolRow | app/routers/auto_enroll.py:301-366 | Lookup, allocation, insert or update (whatever address the row has, or none), and commit, in place, as one transaction or a roll back |
| AutoEnroll.PassGates | app/routers/auto_enroll.py:236-298 | The gates in their order, consuming both buckets before the verdict; 429 iff the payload is valid and the bucket of the source or that of the serial has no token |
| AutoEnroll.GatesPassExactly | app/routers/auto_enroll.py:236-298 | Which requests get past the gates, and for each error code exactly which are refused with it; past the limits means that the buckets of both the source address and the serial have a token at that instant |
| AutoEnroll.GatesChargeExactly | app/routers/auto_enroll.py:236-246 | A valid payload charges the buckets of its source and its serial, whatever the verdict, and no other; any other payload charges none |
| AutoEnroll.RetryConvergesAlways | app/routers/auto_enroll.py:306-382 | Repeating a committed attempt commits, answers the same router and address, leaves the table of a single attempt and one active token |
| Database.RetryConverges | app/routers/auto_enroll.py:306-382 | The same for a first enrolment, with every other token left as it was |
| Database.InsertKeepsUnique | app/models/router.py:36-58 | A committed insert keeps all UNIQUE constraints |
| Database.ReenrolKeepsUnique | app/models/router.py:36-58 | A committed update keeps all UNIQUE constraints |
| Database.NullsNeverCollide | app/models/router.py:55-58 | Rows without a key or an address clash only in what they have |
| Database.PayloadFieldsExactly | app/routers/auto_enroll.py:79-125 | Of a valid payload, exactly which texts may stand in for each field |
| Database.CommittedRowIsPayloadExactly | app/routers/auto_enroll.py:327-338 | The committed row is the payload's in a column iff that column was written, or has not changed since it was loaded; serial, address and status are kept |
| Database.AssignFields | app/routers/auto_enroll.py:327-338 | The assignments, in place, give the row in which exactly the columns that differ from the loaded ones are written |
| Database.Store.CommitNew | app/routers/auto_enroll.py:306-325 | Insert and mint, or leave both tables as they were; the row and the token field by field, the status by the form of the identity |
| Database.Store.CommitReenrol | app/routers/auto_enroll.py:327-362 | Write the changed fields, revoke in a loop, mint, field by field; or leave both tables as they were |
| Database.Store.Revoke | app/routers/auto_enroll.py:340-348 | The loop marks exactly the router's unrevoked tokens |
| ManagedText.Layout.CutOfPrint | app/services/wireguard.py:71-91 | No marker and no header, not even one straddling the end of the head, is found before the printed marker |
| ManagedText.Layout.HeadOfPrint | app/services/wireguard.py:71-99 | Reading a printed file back gives the right-stripped head and one newline |
| ManagedText.Layout.HeadIsClean | app/services/wireguard.py:71-91 | Whatever the file holds, the head the reader returns can be printed and found again |
| ManagedText.Layout.RewriteKeepsHead | app/services/wireguard.py:71-99 | Rewriting the tail keeps the head and has no effect on later rewrites |
| WgConfig.ReadOfRendered | app/services/wireguard.py:71-99 | For every clean block and every peer list the reader returns the right-stripped block and one newline |
| WgConfig.SyncIsIdempotent | app/services/wireguard.py:248-270 | A sync keeps the interface block, erases earlier syncs, and is byte-for-byte idempotent |
| WgConfig.RenderConfig | app/services/wireguard.py:94-99 | The parts joined, stripped and ended by a newline are the block, the marker and every stanza in order |
| WgConfig.WgConfIsValid | app/services/wireguard.py:64-64 | The marker the program uses is one the theorems are about |
| WgConfig.MarkerText | app/services/wireguard.py:64-64 | Its marker and header, in full |
| WgConfig.StanzaText | app/services/wireguard.py:51-61 | The text of a stanza, line by line |
| Verbatim.KeptExactly | app/services/wireguard.py:71-99 | A sync keeps the hand-written part byte for byte iff it holds no carriage return and ends in at most two newlines after its last visible character |
| Verbatim.KeptFromThenOn | app/services/wireguard.py:71-99 | What a sync has written above the marker every later sync keeps |
| Verbatim.CutOfUniversal | app/services/wireguard.py:81-91 | Cutting the text on disk and reading it, or reading it and cutting, is the same |
| Verbatim.TrailingSpaceIsLost | app/services/wireguard.py:88-91 | A concrete file whose last hand-written line is not kept |
| Verbatim.LineEndsAreLost | app/services/wireguard.py:81-91 | A concrete file with CR LF whose line ends are not kept |
| WgParse.ParseOfRendered | app/services/wireguard.py:51-99 | A wg(8) section reader recovers exactly the rendered peers, in order |
| WgParse.ParseBackExactly | app/routers/auto_enroll.py:85-85 | It does so iff no identity has a line break, which the request schema does not check |
| WgNames.BrokenIdentityIsLost | app/routers/auto_enroll.py:85-85 | An identity with a line break is not read back, beside any accepted key and any address |
| WgNames.ParsedHasExactly | app/services/wireguard.py:51-99 | For an address no rendered peer has, a wg(8) reader of the file finds a peer with it iff some rendered identity, read on its own, claims it |
| WgNames.OneLineNamesClaimNothing | app/services/wireguard.py:51-61 | Identities on one line claim no address |
| WgNames.MultiLineNameClaims | app/services/wireguard.py:51-61 | A concrete identity with line breaks that does: wherever it is read it leaves a peer with a chosen key and address |
| WgNames.MultiLineNameFits | app/routers/auto_enroll.py:85-85 | The request schema accepts its length, for every 44-character key and every address |
| WgParse.RenderedInjective | app/services/wireguard.py:94-99 | Different peer lists give different files |
| WgFile.ConfigDir.WriteAtomic | app/services/wireguard.py:102-126 | Wherever it fails the target keeps its text and no temporary file stays; at no moment does the target hold anything but the old text or the whole new one |
| WgFile.SyncFromDb | app/services/wireguard.py:248-270 | The new file as a function of the old one and the table, in every case of failure |
| Peers.FetchActivePeers | app/services/wireguard.py:146-164 | The loop returns a peer iff some row is active, with that key, that address and that identity; in address order |
| Peers.ActivePeersExactly | app/services/wireguard.py:146-164 | The peers are those of the active rows with a key and an address, each with its own identity, key and address in dotted decimal, and no others |
| Peers.PeersStrictlyAscend | app/services/wireguard.py:146-154 | Selected rows strictly increase by address |
| Peers.PeersInOrder | app/services/wireguard.py:146-154 | So do the peers |
| Peers.ExactlyOneStanza | app/services/wireguard.py:146-164 | An active router with key and address has one stanza, with its identity, key and address, and no other stanza has its address |
| Peers.OrderDoesNotMatter | app/services/wireguard.py:146-164 | Tables with the same rows in any order give the same peers |
| Peers.AlikeGiveSamePeers | app/routers/telemetry.py:299-301 | Heartbeats do not change the peers |
| Overlay.AllocateOverlayIp | app/services/wireguard.py:167-197 | The two loops answer the lowest host that is neither used nor the server's, fail exactly when there is none, and reject a column value that is no IPv4 address |
| Overlay.AllocatesNext | app/services/wireguard.py:188-197 | With the first n of the pool used, the next is answered, or the pool is exhausted |
| Overlay.DefaultPool | app/services/wireguard.py:10-11 | The default network has 1021 addresses for routers |
| Overlay.PoolExactly | app/services/wireguard.py:188-197 | In every network a router can get exactly the addresses but the server's and, if there are more than two, but the first and the last |
| Inet.FirstRouterAddress | app/services/wireguard.py:133-143 | The first of them in the default network is printed 10.100.0.2 |
| Inet.CoerceExactly | app/services/wireguard.py:133-143 | A driver text coerces to an address iff what stands before its first slash is that address in dotted decimal |
| Inet.ParseOfDotted | app/services/wireguard.py:133-143 | Parsing the dotted decimal of an address gives the address |
| Inet.DottedOfParse | app/services/wireguard.py:133-143 | Only canonical dotted decimal parses |
| Inet.StoredAddressCoerces | app/services/wireguard.py:133-143 | Stored addresses coerce back, with and without a prefix length |
| RouterTokens.FindValidRouterToken | app/services/tokens.py:180-200 | The prefix-filtered loop with early return finds the first matching row |
| RouterTokens.IndexAgreesWithScan | app/services/tokens.py:180-200 | Under the table invariant it finds the row a full scan by hash finds |
| RouterTokens.ShortIsNoToken | app/services/tokens.py:180-192 | Text of fewer than eight characters is no token |
| Telemetry.PushTelemetry | app/routers/telemetry.py:236-301 | The handler, in place, ends in the tables, buckets and answer of `Push` |
| Telemetry.PushFrame | app/routers/telemetry.py:299-301 | An accepted POST changes last_seen_at of its own router and nothing else; a refused one changes no table |
| RequestChecks.BearerSound | app/routers/telemetry.py:207-226 | An extracted token is what stands between the word bearer, its letters in either case, and the end, outer white space apart |
| RequestChecks.BearerComplete | app/routers/telemetry.py:207-226 | Every header of that form yields its token |
| RequestChecks.BearerTokenIsRead | app/routers/telemetry.py:207-226 | `Bearer <token>` yields the token, for every non-empty token that strip leaves alone |
| RequestChecks.SecretPassesExactly | app/routers/auto_enroll.py:149-172 | A secret passes iff it is the text of a slot in use, and the current slot wins |
| RequestChecks.ApprovedExactly | app/routers/auto_enroll.py:186-194 | The rule approves exactly the identities of the documented form, a final newline aside |
| RequestChecks.ApprovalDiffersExactly | app/routers/auto_enroll.py:186-194 | The rule and its documented form agree iff the identity is not that form with a newline after it |
| RequestChecks.FinalNewlineIsApproved | app/routers/auto_enroll.py:72-72 | A concrete identity on which they differ |
| KeyCodec.DecodeOfEncode | app/routers/auto_enroll.py:108-117 | Decoding an encoding gives the bytes back |
| KeyCodec.EncodeInjective | app/routers/auto_enroll.py:108-117 | Different bytes have different encodings |
| KeyCodec.AcceptsExactlyKeys | app/routers/auto_enroll.py:93-125 | A 44-character text is accepted iff it encodes some 32 bytes |
| KeyCodec.AcceptsExactlyShape | app/routers/auto_enroll.py:93-125 | Equivalently iff it is 43 alphabet characters, the last with value divisible by 4, and one equals sign |
| KeyCodec.AcceptedTextIsTheKey | app/models/router.py:55-55 | Accepted texts are equal iff the keys are, so textual UNIQUE is uniqueness of keys |
| KeyCodec.EveryKeyIsAccepted | app/routers/auto_enroll.py:93-125 | Every 32-byte key has an accepted text that decodes to it |
| KeyCodec.AcceptedTextHasOneKey | app/routers/auto_enroll.py:93-125 | Every accepted text is the encoding of one 32-byte key and of no other |
| KeyCodec.Alphabet | app/routers/auto_enroll.py:108-117 | The alphabet is Table 1 of RFC 4648 |
| KeyCodec.SixBytesVector | app/routers/auto_enroll.py:108-117 | A test vector of section 10 of RFC 4648 |
| RateLimit.TokenBucket.TryConsume | app/services/rate_limit.py:24-32 | One request, in place: refill, cap, take or refuse |
| RateLimit.RateLimiter.CheckRateLimit | app/services/rate_limit.py:35-44 | The dictionary creates a full bucket on first use and touches only the bucket of the key |
| RateLimitTraces.TraceKeepsValid | app/services/rate_limit.py:24-32 | Along every trace the level stays between zero and capacity |
| RateLimitTraces.WindowBound | app/services/rate_limit.py:24-44 | In any window at most 10 + (t2 - t1)/6 requests are granted |
| RateLimitTraces.BurstIsTight | app/services/rate_limit.py:24-32 | Of n requests at one instant to k whole tokens, min(n, k) are granted |
| RateLimitTraces.WindowBoundIsTight | app/services/rate_limit.py:35-44 | The window bound is met for windows of every length, by ten requests at once and then one every six seconds |
| RateLimitTraces.TwentyInAMinute | app/services/rate_limit.py:42-42 | Twenty requests of one key are granted within sixty seconds |
| RateLimitTraces.GreedyIsOptimal | app/services/rate_limit.py:24-32 | After every prefix it has granted at least as many as any schedule that never drives the bucket below zero |
| RateLimitTraces.RunIsFeasible | app/services/rate_limit.py:24-32 | Its own verdicts are such a schedule |
| RateLimitTraces.RefusalCostsNothing | app/services/rate_limit.py:24-32 | Deleting a refused request leaves every other verdict as it was |
| RateLimitTraces.LazyBucketsAreIndependent | app/services/rate_limit.py:35-44 | For any mix of keys the lazily filled dictionary gives each key the verdicts of a bucket full from the start |
| RateLimitTraces.EnrolmentWindowBound | app/routers/auto_enroll.py:240-242 | Enrolments of one serial that pass both limits obey the window bound, across all source addresses |
| LimiterHistory.StepQuestion | app/services/rate_limit.py:41-44 | A step of the system asks each bucket at most once and touches none that it does not ask |
| LimiterHistory.KeyWindowBound | app/services/rate_limit.py:24-44 | In every run, with enrolments and heartbeats interleaved in any way, each key obeys the window bound |
| LimiterHistory.SerialWindowBound | app/routers/auto_enroll.py:240-242 | So do the enrolments of one serial that get past the gates, across all source addresses |
| LimiterHistory.SourceWindowBound | app/routers/auto_enroll.py:240-242 | So do the enrolments from one source address that get past the gates, whatever their serials |
| LimiterHistory.RouterWindowBound | app/routers/telemetry.py:266-301 | So do the accepted heartbeats of one router, by the time their limit was charged, wherever they come from |
| LimiterHistory.AcceptedWereGranted | app/routers/telemetry.py:266-301 | Accepted heartbeats and those still on their way are no more than the grants of their router's bucket |
| LimiterHistory.RouterKeysDiffer | app/routers/telemetry.py:266-266 | Two routers never share a bucket |
| LimiterHistory.KeysDiffer | app/services/rate_limit.py:35-44 | The four limits share no bucket with each other, and each has its own bucket for every address, serial or router |
| AdminTokens.AdminTokenStore.Issue | app/services/tokens.py:85-112 | A positive ttl and a label that is not blank add one row, given field by field, that expires after ttl times 3600 seconds; anything else adds none |
| AdminTokens.IssuedIsAcceptedFor | app/services/tokens.py:97-136 | An issued token is accepted for exactly as many hours as was asked, while it is not revoked |
| AdminTokens.AdminTokenStore.Find | app/services/tokens.py:115-136 | The loop finds the first live candidate with the hash |
| AdminTokens.AdminTokenStore.Revoke | app/services/tokens.py:139-153 | With nothing in between, the loop writes the time to exactly the unrevoked tokens with this label or this prefix, expired ones too, and the count is the decrease in unrevoked tokens |
| AdminTokens.AdminTokenStore.List | app/services/tokens.py:203-226 | The loop lists the tokens newest first, inactive ones only when asked |
| AdminTokens.FindAgreesWithScan | app/services/tokens.py:115-136 | The prefix-filtered lookup finds the row a full scan of the live rows by hash finds |
| AdminTokens.AcceptedExactly | app/services/tokens.py:115-136 | A text is accepted as a row iff it is that row's raw token and the row is live |
| AdminTokens.ListingIsWhatIsAccepted | app/services/tokens.py:203-226 | At any instant the default listing is exactly the set of tokens the lookup accepts |
| AdminTokens.ListedExactly | app/services/tokens.py:203-226 | What is listed of each token, field by field |
| AdminTokens.ListedNewestFirst | app/services/tokens.py:206-207 | Tokens are listed newest first |
| AdminTokens.OrderedOnce | app/services/tokens.py:206-207 | No token is listed twice |
| AdminHistory.RevokedExactly | app/services/tokens.py:139-153 | In every run, with any number of revocations and uses in flight, a token is revoked iff it was before or a revocation that had read it has written since; so a revoked token stays revoked |
| AdminHistory.TimeStaysExactly | app/services/tokens.py:150-152 | The time of a revoked token stays what it is iff every revocation that had read the token and writes later gives it that same time |
| AdminHistory.LateWriteReadEarlier | app/services/tokens.py:143-152 | A revocation that writes to an already revoked token had read it, unrevoked, before it was revoked |
| AdminAcceptance.AcceptedOverRunsExactly | app/services/tokens.py:115-136 | At any moment of a run the raw text of a token is accepted as it iff it has not expired, was not revoked before, and no revocation that had read it has written |
| AdminAcceptance.RevokedForGood | app/services/tokens.py:139-153 | Once a revocation has written, no token that had its identifier as label or as prefix when it read is ever accepted again, under every interleaving |
| AdminCounts.CountsAddUpExactly | app/services/tokens.py:139-153 | The counts that revocations return are together never less than the decrease in unrevoked tokens, and equal it iff no two revocations that wrote had read a token in common |
| AdminHistory.IssueIsAStep | app/services/tokens.py:85-112 | Whatever the checks of an issue let through, a step of a run adds |
| AdminHistory.SelectExactly | app/services/tokens.py:143-150 | A revocation reads exactly the unrevoked tokens with this label or this prefix |
| AdminHistory.WriteExactly | app/services/tokens.py:150-153 | A revocation that writes gives its time to exactly the tokens it had read, whatever has become of them |
| AdminHistory.AcceptExactly | app/services/tokens.py:115-136 | At its own instant a text is let in iff it is the raw token of an unrevoked and unexpired row |
| AdminHistory.NoteExactly | app/routers/factory.py:101-103 | A use that is written leaves the count it had read, and one, and its time, and nothing else |
| AdminRuns.OneTransaction | app/services/tokens.py:139-153 | A read and write of a revocation with nothing in between give the table of `RevokeMatching` and a count that is the decrease |
| AdminRuns.OverlappingRevokes | app/cli.py:110-116 | From every table, two revocations of one token overlap: its time is set twice, and the counts exceed the decrease |
| AdminUses.UseCountExactly | app/routers/factory.py:84-103 | A use count never exceeds the uses written and equals it iff no two of them overlapped |
| AdminRuns.OverlappingUses | app/routers/factory.py:101-103 | Two overlapping uses of a live token add one to its count |
| AdminTokens.RevokeIsPrecise | app/services/tokens.py:139-153 | A token gets the time iff it is unrevoked and has the identifier as label or as prefix, and nothing else of it changes |
| Uptime.ParseUptime | app/services/influx.py:56-73 | The accumulating loop computes `Uptime` |
| Uptime.UptimeIsExact | app/services/influx.py:41-73 | The weighted sum for text in the grammar, 0 for any other |
| Uptime.DecompositionIsUnique | app/services/influx.py:41-49 | A text has at most one decomposition in the grammar |
| Uptime.ParseOfRender | app/services/influx.py:56-73 | Parsing the canonical rendering of n gives n |
| Uptime.RouterOsUptimeIsExact | app/services/influx.py:41-73 | The exact value for the program's own five units |
| Uptime.RouterOsParseOfRender | app/services/influx.py:50-73 | The round trip for them |
| Uptime.ElapsedTime | app/services/influx.py:41-73 | Any weeks, days, hours, minutes and seconds, written in that order and some of them left out, are read as (((7w + d)24 + h)60 + m)60 + s seconds |
| InterfacePoints.BuildInterfacePoints | app/services/influx.py:186-236 | Ethernet, then wireless, then wifi, each in order; fails iff some conversion raises |
| InterfacePoints.PointsExactly | app/services/influx.py:215-236 | The points of an array are those of its entries, in order; what is no dictionary has none |
| InterfacePoints.BuildOne | app/services/influx.py:239-325 | The point of an entry, or none |
| InterfacePoints.PointExactly | app/services/influx.py:239-325 | A point is built iff the name is non-empty text and some field legal for the kind is usable, and it carries exactly those fields |
| InterfacePoints.PointCarriesExactly | app/services/influx.py:255-320 | Which fields a point carries, by name and kind, and the value of each in terms of the entry's |
| InterfacePoints.FailsExactlyOnInfinity | app/services/influx.py:268-281 | An entry fails the build iff it is named and a numeric field legal for its kind is an infinite float |
| InterfacePoints.InfiniteCounterFails | app/services/influx.py:268-281 | A concrete entry whose infinite counter fails the build |
| InterfacePoints.HeartbeatUptime | app/services/influx.py:332-346 | A canonical uptime, nested or flat, is read exactly; a nested one wins |
| InterfacePoints.NestedIsIn | app/services/influx.py:332-346 | Where the nested uptime stands |

## Left out

- HTTP, the request framework, logging, audit rows, templates, the Influx client, and the system measurement: I/O around the modelled core.
- `_run_sync_helper`: a foreign process; a step that succeeds or fails.
- SHA-256, `secrets` and constant-time comparison: the hash is any collision-free function, minted tokens are fresh, timing is not modelled.
- WgParse.Classify: reads the form the printer writes. wg(8) also folds case, removes white space and anything after a `#`, takes several AllowedIPs, and refuses a file with an unknown line or a peer without a key; the peers are named by their comments, which wg(8) drops.
- Database.Clash: without the UNIQUE constraint on token hashes, which follows from fresh tokens and a collision-free hash.
- Database.InsertRouter: how the columns read text is a parameter (`Columns`): for a MAC any function that yields a canonical form or rejects, for text any predicate.
- AdminTokens.InsertId: rows with the same creation time are listed highest id first; the query leaves their order open.
- The schema of a heartbeat's body: a POST that fails it never reaches the handler.
- RateLimit.Check: a bucket is created and asked at one clock reading; the code reads the clock twice. Levels are real numbers without rounding.
- Uptime.Match: digits are ASCII, as they are in addresses; Python also takes other decimal digits in `\d`.
- RequestChecks.ExtractBearer: case folding of the scheme is ASCII.
- WgFile.ConfigDir.WriteAtomic: content only; of owner and mode, only that a denied chown is forgiven and any other failure is not.
- `ros_major`: derived from the version text and read by nothing modelled here.
- Ids of rows are positions in their table; gaps that rolled-back inserts leave in a database sequence are not modelled.
- White space in `strip` is the set of `Text.IsSpace`.
- `app/cli.py`, `app/routers/factory.py` beyond the use of a token, the manual enrolment stub, health probes, migrations, dashboards, scripts and RouterOS templates: wrappers or configuration.
- The tables `provisioning_secrets` and `provisioning_rules`: not used by the handlers.

/** The tables behind the control plane: routers, telemetry tokens, their constraints and the two
    transactions of an enrolment. */
module Database {
  import opened Wrappers
  import opened Inet
  import opened RateLimit
  import opened RequestChecks
  import KeyCodec

  datatype Status = Active | Pending | Decommissioned | Quarantined

  datatype Device = Device(model: string, rosVersion: string, wifiStack: string)

  datatype Payload = Payload(serial: string, mac: string, identity: string, publicKey: string, device: Device)

  /** What the request schema checks. */
  predicate ValidPayload(p: Payload) {
    && 4 <= |p.serial| <= 64
    && |p.mac| == 17
    && 1 <= |p.identity| <= 128
    && |p.publicKey| == 44 && KeyCodec.ValidatePublicKey(p.publicKey).Success?
    && 1 <= |p.device.model| <= 64
    && 1 <= |p.device.rosVersion| <= 32
    && p.device.wifiStack in {"wireless", "wifi"}
  }

  /** Of a valid payload, which texts may stand in for each of its fields. */
  lemma PayloadFieldsExactly(p: Payload, text: string)
    requires ValidPayload(p)
    ensures ValidPayload(p.(serial := text)) <==> 4 <= |text| <= 64
    ensures ValidPayload(p.(mac := text)) <==> |text| == 17
    ensures ValidPayload(p.(identity := text)) <==> 1 <= |text| <= 128
    ensures ValidPayload(p.(device := p.device.(model := text))) <==> 1 <= |text| <= 64
    ensures ValidPayload(p.(device := p.device.(rosVersion := text))) <==> 1 <= |text| <= 32
    ensures ValidPayload(p.(device := p.device.(wifiStack := text))) <==> text == "wireless" || text == "wifi"
    ensures ValidPayload(p.(publicKey := text)) <==>
              |text| == 44 && exists key: seq<KeyCodec.Byte> :: |key| == 32 && KeyCodec.Encode(key) == text
  {
    if |text| == 44 {
      KeyCodec.AcceptsExactlyKeys(text);
    }
  }

  /** A row of `routers`; its id is its position. Rows are never deleted. */
  datatype RouterRow = RouterRow(identity: string, serial: string, mac: string, device: Device,
                                 publicKey: Option<string>, overlayIp: Option<Address>,
                                 status: Status, enrolledAt: Option<Time>, lastSeenAt: Option<Time>)

  /** A row of `router_tokens`. */
  datatype TokenRow = TokenRow(routerId: nat, tokenHash: string, tokenPrefix: string, revokedAt: Option<Time>)

  datatype Tables = Tables(routers: seq<RouterRow>, tokens: seq<TokenRow>)

  // ----- constraints ----------------------------------------------------------------

  /** Two rows that the UNIQUE constraints do not allow together; NULLs never collide. */
  predicate Clash(a: RouterRow, b: RouterRow) {
    || a.identity == b.identity
    || a.serial == b.serial
    || a.mac == b.mac
    || (a.publicKey.Some? && a.publicKey == b.publicKey)
    || (a.overlayIp.Some? && a.overlayIp == b.overlayIp)
  }

  /** NULLs never collide: rows without a key or without an address clash only in what they have. */
  lemma NullsNeverCollide(a: RouterRow, b: RouterRow)
    requires a.identity != b.identity && a.serial != b.serial && a.mac != b.mac
    requires a.publicKey == None || a.publicKey != b.publicKey
    requires a.overlayIp == None || a.overlayIp != b.overlayIp
    ensures !Clash(a, b)
  {
  }

  predicate UniqueRows(rows: seq<RouterRow>) {
    forall i, j :: 0 <= i < j < |rows| ==> !Clash(rows[i], rows[j])
  }

  // ----- columns --------------------------------------------------------------------

  /** What the columns make of text. A MACADDR column reads a canonical form or rejects; a TEXT
      column accepts or rejects, as it does a NUL character. */
  datatype Columns = Columns(mac: string -> Option<string>, text: string -> bool)

  predicate InsertAccepted(cols: Columns, p: Payload) {
    && cols.mac(p.mac).Some?
    && cols.text(p.identity) && cols.text(p.serial) && cols.text(p.publicKey)
    && cols.text(p.device.model) && cols.text(p.device.rosVersion)
  }

  /** Only the columns that are written can reject. */
  predicate UpdateAccepted(cols: Columns, loaded: RouterRow, p: Payload) {
    && (p.mac != loaded.mac ==> cols.mac(p.mac).Some?)
    && (p.identity != loaded.identity ==> cols.text(p.identity))
    && (Some(p.publicKey) != loaded.publicKey ==> cols.text(p.publicKey))
    && (p.device.model != loaded.device.model ==> cols.text(p.device.model))
    && (p.device.rosVersion != loaded.device.rosVersion ==> cols.text(p.device.rosVersion))
  }

  // ----- rows -----------------------------------------------------------------------

  function InitialStatus(identity: string): Status {
    if AutoApproved(identity) then Active else Pending
  }

  function NewRow(p: Payload, mac: string, ip: Address, now: Time): RouterRow {
    RouterRow(p.identity, p.serial, mac, p.device, Some(p.publicKey), Some(ip),
              InitialStatus(p.identity), Some(now), None)
  }

  /** The ORM writes a column only when its new value differs from the one that was loaded. */
  function Written<T(==)>(value: T, loaded: T, current: T): T {
    if value != loaded then value else current
  }

  /** A re-enrolment takes from the payload what differs from the row it loaded, all but the
      serial, and keeps the overlay address and the status. */
  function UpdatedRow(cols: Columns, current: RouterRow, loaded: RouterRow, p: Payload, now: Time): RouterRow
    requires UpdateAccepted(cols, loaded, p)
  {
    current.(identity := Written(p.identity, loaded.identity, current.identity),
             mac := if p.mac != loaded.mac then cols.mac(p.mac).value else current.mac,
             device := Device(Written(p.device.model, loaded.device.model, current.device.model),
                              Written(p.device.rosVersion, loaded.device.rosVersion, current.device.rosVersion),
                              Written(p.device.wifiStack, loaded.device.wifiStack, current.device.wifiStack)),
             publicKey := Written(Some(p.publicKey), loaded.publicKey, current.publicKey),
             enrolledAt := Some(now))
  }

  /** A first row, field by field: active exactly when its identity has the documented form. */
  ghost predicate FirstRow(row: RouterRow, p: Payload, mac: string, ip: Address, now: Time) {
    && row.identity == p.identity && row.serial == p.serial && row.mac == mac
    && row.device.model == p.device.model && row.device.rosVersion == p.device.rosVersion
    && row.device.wifiStack == p.device.wifiStack
    && row.publicKey == Some(p.publicKey) && row.overlayIp == Some(ip)
    && row.status == (if NamedOrEnded(p.identity) then Active else Pending)
    && row.enrolledAt == Some(now) && row.lastSeenAt == None
  }

  lemma NewRowIsFirst(p: Payload, mac: string, ip: Address, now: Time)
    ensures FirstRow(NewRow(p, mac, ip, now), p, mac, ip, now)
  {
    hide AutoApproved, NamedOrEnded;
    ApprovedByForm(p.identity);
  }

  /** What one column holds after an update: what was assigned, if that differs from what was loaded,
      and else what it held. */
  predicate Assigned<T(==)>(after: T, value: T, loaded: T, before: T) {
    (value != loaded ==> after == value) && (value == loaded ==> after == before)
  }

  /** A row after a re-enrolment, field by field. */
  predicate NextRow(row: RouterRow, current: RouterRow, loaded: RouterRow, p: Payload, cols: Columns, now: Time) {
    && Assigned(row.identity, p.identity, loaded.identity, current.identity)
    && Assigned(row.device.model, p.device.model, loaded.device.model, current.device.model)
    && Assigned(row.device.rosVersion, p.device.rosVersion, loaded.device.rosVersion, current.device.rosVersion)
    && Assigned(row.device.wifiStack, p.device.wifiStack, loaded.device.wifiStack, current.device.wifiStack)
    && Assigned(row.publicKey, Some(p.publicKey), loaded.publicKey, current.publicKey)
    && (p.mac != loaded.mac ==> cols.mac(p.mac) == Some(row.mac))
    && (p.mac == loaded.mac ==> row.mac == current.mac)
    && row.serial == current.serial && row.overlayIp == current.overlayIp && row.status == current.status
    && row.enrolledAt == Some(now) && row.lastSeenAt == current.lastSeenAt
  }

  lemma UpdatedRowIsNext(cols: Columns, current: RouterRow, loaded: RouterRow, p: Payload, now: Time)
    requires UpdateAccepted(cols, loaded, p)
    ensures NextRow(UpdatedRow(cols, current, loaded, p, now), current, loaded, p, cols, now)
  {
  }

  const PREFIX_LEN: nat := 8

  function PrefixOf(raw: string): string {
    if |raw| <= PREFIX_LEN then raw else raw[..PREFIX_LEN]
  }

  function MintedRow(hash: Hash, routerId: nat, raw: string): TokenRow {
    TokenRow(routerId, hash(raw), PrefixOf(raw), None)
  }

  /** Mark the unrevoked tokens of one router. */
  function RevokeAll(tokens: seq<TokenRow>, routerId: nat, now: Time): (r: seq<TokenRow>)
    ensures |r| == |tokens|
  {
    seq(|tokens|, i requires 0 <= i < |tokens| =>
      if tokens[i].routerId == routerId && tokens[i].revokedAt.None?
      then tokens[i].(revokedAt := Some(now)) else tokens[i])
  }

  /** The tokens after a first enrolment, or a re-enrolment, of a router: one more, with the hash and
      the first eight characters of what was minted. */
  predicate OneMinted(before: seq<TokenRow>, after: seq<TokenRow>, hash: Hash, routerId: nat, raw: string) {
    && |raw| >= 8 && |after| == |before| + 1
    && after[|before|].routerId == routerId && after[|before|].tokenHash == hash(raw)
    && after[|before|].tokenPrefix == raw[..8] && after[|before|].revokedAt == None
  }

  /** Those that the router had and that were not revoked are revoked now; no other one changes. */
  predicate OldRevoked(before: seq<TokenRow>, after: seq<TokenRow>, routerId: nat, now: Time) {
    && |before| <= |after|
    && forall i :: 0 <= i < |before| ==>
         && after[i].routerId == before[i].routerId && after[i].tokenHash == before[i].tokenHash
         && after[i].tokenPrefix == before[i].tokenPrefix
         && after[i].revokedAt == if before[i].routerId == routerId && before[i].revokedAt == None then Some(now)
                                  else before[i].revokedAt
  }

  lemma MintingIsExact(hash: Hash, tokens: seq<TokenRow>, routerId: nat, raw: string, now: Time)
    requires |raw| >= 8
    ensures var minted := [MintedRow(hash, routerId, raw)];
            && OneMinted(tokens, tokens + minted, hash, routerId, raw)
            && OneMinted(tokens, RevokeAll(tokens, routerId, now) + minted, hash, routerId, raw)
            && OldRevoked(tokens, RevokeAll(tokens, routerId, now) + minted, routerId, now)
  {
  }

  // ----- the two transactions -------------------------------------------------------

  /** Insert a router and its first token; None when a column rejects its text or a UNIQUE
      constraint aborts. */
  function InsertRouter(hash: Hash, cols: Columns, t: Tables, p: Payload, ip: Address, raw: string, now: Time)
      : Option<Tables> {
    if !InsertAccepted(cols, p) then None
    else
      var row := NewRow(p, cols.mac(p.mac).value, ip, now);
      if exists i :: 0 <= i < |t.routers| && Clash(t.routers[i], row) then None
      else Some(Tables(t.routers + [row], t.tokens + [MintedRow(hash, |t.routers|, raw)]))
  }

  /** Update a router in place, given the row as it was loaded, revoke its active tokens and mint a
      new one, as one transaction: the row lock of the update orders concurrent re-enrolments of
      one router. */
  function Reenrol(hash: Hash, cols: Columns, t: Tables, routerId: nat, loaded: RouterRow, p: Payload, raw: string,
                   now: Time): Option<Tables>
    requires routerId < |t.routers|
  {
    if !UpdateAccepted(cols, loaded, p) then None
    else
      var row := UpdatedRow(cols, t.routers[routerId], loaded, p, now);
      if exists i :: 0 <= i < |t.routers| && i != routerId && Clash(t.routers[i], row) then None
      else Some(Tables(t.routers[routerId := row],
                       RevokeAll(t.tokens, routerId, now) + [MintedRow(hash, routerId, raw)]))
  }

  function FindSerial(rows: seq<RouterRow>, serial: string): (r: Option<nat>)
    ensures r.Some? ==> r.value < |rows| && rows[r.value].serial == serial
    ensures r.None? ==> forall i :: 0 <= i < |rows| ==> rows[i].serial != serial
  {
    if rows == [] then None
    else if rows[|rows| - 1].serial == serial then Some(|rows| - 1)
    else FindSerial(rows[..|rows| - 1], serial)
  }

  function UsedIps(rows: seq<RouterRow>): set<nat> {
    set i | 0 <= i < |rows| && rows[i].overlayIp.Some? :: rows[i].overlayIp.value
  }

  lemma InsertKeepsUnique(hash: Hash, cols: Columns, t: Tables, p: Payload, ip: Address, raw: string, now: Time)
    requires UniqueRows(t.routers) && InsertRouter(hash, cols, t, p, ip, raw, now).Some?
    ensures UniqueRows(InsertRouter(hash, cols, t, p, ip, raw, now).value.routers)
  {
  }

  lemma ReenrolKeepsUnique(hash: Hash, cols: Columns, t: Tables, routerId: nat, loaded: RouterRow, p: Payload,
                           raw: string, now: Time)
    requires UniqueRows(t.routers) && routerId < |t.routers|
    requires Reenrol(hash, cols, t, routerId, loaded, p, raw, now).Some?
    ensures UniqueRows(Reenrol(hash, cols, t, routerId, loaded, p, raw, now).value.routers)
  {
    var row := UpdatedRow(cols, t.routers[routerId], loaded, p, now);
    forall i | 0 <= i < |t.routers| && i != routerId ensures !Clash(t.routers[i], row) && !Clash(row, t.routers[i]) {
    }
  }

  /** The committed row is the payload's exactly in the columns that were written, and in those
      where the payload agrees with the loaded row and the row has not changed since. So it is the
      payload's throughout when nothing was committed between the load and the update. */
  lemma CommittedRowIsPayloadExactly(cols: Columns, current: RouterRow, loaded: RouterRow, p: Payload, now: Time)
    requires UpdateAccepted(cols, loaded, p)
    ensures var row := UpdatedRow(cols, current, loaded, p, now);
            && (row.identity == p.identity <==> p.identity != loaded.identity || current.identity == loaded.identity)
            && (row.publicKey == Some(p.publicKey) <==>
                  Some(p.publicKey) != loaded.publicKey || current.publicKey == loaded.publicKey)
            && (row.device == p.device <==>
                  && (p.device.model != loaded.device.model || current.device.model == loaded.device.model)
                  && (p.device.rosVersion != loaded.device.rosVersion
                      || current.device.rosVersion == loaded.device.rosVersion)
                  && (p.device.wifiStack != loaded.device.wifiStack
                      || current.device.wifiStack == loaded.device.wifiStack))
            && row.serial == current.serial && row.overlayIp == current.overlayIp && row.status == current.status
  {
  }

  /** An enrolment that committed but whose answer was lost can be repeated: the retry never hits
      a constraint, ends in the very router table a single enrolment at the later time gives, and
      leaves one active token for the router, the one just minted. */
  lemma RetryConverges(hash: Hash, cols: Columns, t: Tables, p: Payload, ip: Address,
                       raw1: string, now1: Time, raw2: string, now2: Time)
    requires InsertRouter(hash, cols, t, p, ip, raw1, now1).Some?
    requires forall i :: 0 <= i < |t.tokens| ==> t.tokens[i].routerId < |t.routers|
    ensures var id := |t.routers|;
            var first := InsertRouter(hash, cols, t, p, ip, raw1, now1).value;
            var retry := Reenrol(hash, cols, first, id, first.routers[id], p, raw2, now2);
            var single := InsertRouter(hash, cols, t, p, ip, raw2, now2);
            && FindSerial(first.routers, p.serial) == Some(id)
            && retry.Some? && single.Some?
            && retry.value.routers == single.value.routers
            && retry.value.tokens[..|t.tokens|] == t.tokens
            && (forall i :: 0 <= i < |retry.value.tokens| ==>
                  (retry.value.tokens[i].routerId == id && retry.value.tokens[i].revokedAt.None?
                   <==> i == |retry.value.tokens| - 1))
            && retry.value.tokens[|retry.value.tokens| - 1] == MintedRow(hash, id, raw2)
  {
    var id := |t.routers|;
    var row1, row2 := NewRow(p, cols.mac(p.mac).value, ip, now1), NewRow(p, cols.mac(p.mac).value, ip, now2);
    assert forall i :: 0 <= i < id ==> Clash(t.routers[i], row1) == Clash(t.routers[i], row2);
    var first := InsertRouter(hash, cols, t, p, ip, raw1, now1).value;
    assert UpdatedRow(cols, first.routers[id], first.routers[id], p, now2) == row2;
    assert first.routers[..id] == t.routers;
    assert forall i :: 0 <= i < |first.routers| && i != id ==> first.routers[i] == t.routers[i];
    assert first.routers[id := row2] == t.routers + [row2];
    var revoked := RevokeAll(first.tokens, id, now2);
    assert revoked[..|t.tokens|] == t.tokens;
  }

  // ----- the transactions, in place -------------------------------------------------

  /** Assign the fields of a loaded row; what is flushed is what changed. */
  method AssignFields(cols: Columns, current: RouterRow, loaded: RouterRow, p: Payload, now: Time)
      returns (row: RouterRow)
    requires UpdateAccepted(cols, loaded, p)
    ensures row == UpdatedRow(cols, current, loaded, p, now)
  {
    row := current;
    if p.identity != loaded.identity {
      row := row.(identity := p.identity);
    }
    if p.mac != loaded.mac {
      row := row.(mac := cols.mac(p.mac).value);
    }
    if p.device.model != loaded.device.model {
      row := row.(device := row.device.(model := p.device.model));
    }
    if p.device.rosVersion != loaded.device.rosVersion {
      row := row.(device := row.device.(rosVersion := p.device.rosVersion));
    }
    if p.device.wifiStack != loaded.device.wifiStack {
      row := row.(device := row.device.(wifiStack := p.device.wifiStack));
    }
    if Some(p.publicKey) != loaded.publicKey {
      row := row.(publicKey := Some(p.publicKey));
    }
    row := row.(enrolledAt := Some(now));
  }

  /** The database as the handlers change it. */
  class Store {
    var routers: seq<RouterRow>
    var tokens: seq<TokenRow>

    function View(): Tables
      reads this
    {
      Tables(routers, tokens)
    }

    constructor ()
      ensures View() == Tables([], [])
    {
      routers, tokens := [], [];
    }

    /** Does any other row collide with this one? */
    method Conflicts(row: RouterRow, except: Option<nat>) returns (found: bool)
      ensures found <==> exists i :: 0 <= i < |routers| && Some(i) != except && Clash(routers[i], row)
    {
      for i := 0 to |routers|
        invariant forall j :: 0 <= j < i && Some(j) != except ==> !Clash(routers[j], row)
      {
        if Some(i) != except && Clash(routers[i], row) {
          return true;
        }
      }
      return false;
    }

    method AddToken(hash: Hash, routerId: nat, raw: string)
      modifies this`tokens
      ensures tokens == old(tokens) + [MintedRow(hash, routerId, raw)]
    {
      tokens := tokens + [MintedRow(hash, routerId, raw)];
    }

    method Revoke(routerId: nat, now: Time)
      modifies this`tokens
      ensures tokens == RevokeAll(old(tokens), routerId, now)
    {
      ghost var before := tokens;
      for i := 0 to |tokens|
        invariant |tokens| == |before|
        invariant tokens[..i] == RevokeAll(before, routerId, now)[..i] && tokens[i..] == before[i..]
      {
        ghost var at := tokens;
        assert tokens[i] == before[i] by {
          assert tokens[i..][0] == before[i..][0];
        }
        if tokens[i].routerId == routerId && tokens[i].revokedAt.None? {
          tokens := tokens[i := tokens[i].(revokedAt := Some(now))];
        }
        assert tokens[i] == RevokeAll(before, routerId, now)[i];
        assert tokens[..i] == at[..i];
        assert tokens[..i + 1] == tokens[..i] + [tokens[i]];
        assert tokens[i + 1..] == at[i..][1..];
      }
    }

    /** First enrolment: insert and mint, or roll back. */
    method CommitNew(hash: Hash, cols: Columns, p: Payload, ip: Address, raw: string, now: Time)
        returns (committed: bool)
      modifies this
      ensures committed == InsertRouter(hash, cols, old(View()), p, ip, raw, now).Some?
      ensures View() == if committed then InsertRouter(hash, cols, old(View()), p, ip, raw, now).value else old(View())
      ensures committed ==>
                && |routers| == |old(routers)| + 1 && routers[..|old(routers)|] == old(routers)
                && cols.mac(p.mac).Some? && FirstRow(routers[|old(routers)|], p, cols.mac(p.mac).value, ip, now)
                && tokens[..|old(tokens)|] == old(tokens)
                && (|raw| >= 8 ==> OneMinted(old(tokens), tokens, hash, |old(routers)|, raw))
    {
      if |raw| >= 8 {
        MintingIsExact(hash, tokens, |routers|, raw, now);
      }
      if !InsertAccepted(cols, p) {
        return false;
      }
      var row := NewRow(p, cols.mac(p.mac).value, ip, now);
      NewRowIsFirst(p, cols.mac(p.mac).value, ip, now);
      var conflict := Conflicts(row, None);
      if conflict {
        return false;
      }
      routers := routers + [row];
      AddToken(hash, |routers| - 1, raw);
      return true;
    }

    /** Re-enrolment: update the changed columns of the row, revoke, mint, or roll back. */
    method CommitReenrol(hash: Hash, cols: Columns, routerId: nat, loaded: RouterRow, p: Payload, raw: string,
                         now: Time) returns (committed: bool)
      requires routerId < |routers|
      modifies this
      ensures committed == Reenrol(hash, cols, old(View()), routerId, loaded, p, raw, now).Some?
      ensures View() == if committed then Reenrol(hash, cols, old(View()), routerId, loaded, p, raw, now).value
                        else old(View())
      ensures committed ==>
                && |routers| == |old(routers)| && routers == old(routers)[routerId := routers[routerId]]
                && NextRow(routers[routerId], old(routers)[routerId], loaded, p, cols, now)
                && OldRevoked(old(tokens), tokens, routerId, now)
                && (|raw| >= 8 ==> OneMinted(old(tokens), tokens, hash, routerId, raw))
    {
      if |raw| >= 8 {
        MintingIsExact(hash, tokens, routerId, raw, now);
      }
      if !UpdateAccepted(cols, loaded, p) {
        return false;
      }
      var row := AssignFields(cols, routers[routerId], loaded, p, now);
      UpdatedRowIsNext(cols, routers[routerId], loaded, p, now);
      var conflict := Conflicts(row, Some(routerId));
      if conflict {
        return false;
      }
      routers := routers[routerId := row];
      Revoke(routerId, now);
      AddToken(hash, routerId, raw);
      return true;
    }

    /** Admin step. */
    method SetStatus(routerId: nat, status: Status)
      requires routerId < |routers|
      modifies this`routers
      ensures routers == old(routers)[routerId := old(routers)[routerId].(status := status)]
    {
      routers := routers[routerId := routers[routerId].(status := status)];
    }

    /** Liveness of one router. */
    method Touch(routerId: nat, now: Time)
      requires routerId < |routers|
      modifies this`routers
      ensures routers == old(routers)[routerId := old(routers)[routerId].(lastSeenAt := Some(now))]
    {
      routers := routers[routerId := routers[routerId].(lastSeenAt := Some(now))];
    }
  }
}

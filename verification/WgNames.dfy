/** What a wg(8) reader makes of identities with line breaks, which the printer writes as they are. */
module WgNames {
  import opened Text
  import opened Inet
  import opened ManagedText
  import opened WgConfig
  import opened WgParse
  import KeyCodec

  /** Some peer has this address. */
  predicate Has(peers: seq<PeerRow>, a: string) {
    exists i :: 0 <= i < |peers| && peers[i].overlayIp == a
  }

  lemma HasConcat(x: seq<PeerRow>, y: seq<PeerRow>, a: string)
    ensures Has(x + y, a) <==> Has(x, a) || Has(y, a)
  {
    if i :| 0 <= i < |x| && x[i].overlayIp == a {
      assert (x + y)[i].overlayIp == a;
    }
    if i :| 0 <= i < |y| && y[i].overlayIp == a {
      assert (x + y)[|x| + i].overlayIp == a;
    }
  }

  /** Reading a name line as the printer writes it, below the stanza of another peer or not. */
  function ReadName(below: bool, identity: string): Reader {
    ReadText(Reader("", if below then InPeer(PeerRow("", "", "")) else Outside, []), "# " + identity)
  }

  /** The name, read on its own, gives some peer this address. */
  predicate Claims(below: bool, identity: string, a: string) {
    Has(Closed(ReadName(below, identity)), a)
  }

  /** Some name among the peers does; only the first stands below no other stanza. */
  predicate AnyClaims(below: bool, peers: seq<PeerRow>, a: string)
    decreases |peers|
  {
    peers != [] && (Claims(below, peers[0].identity, a) || AnyClaims(true, peers[1..], a))
  }

  // ----- two readers that agree about an address ------------------------------------

  predicate Agree(r: Reader, q: Reader, base: bool, a: string) {
    && (Has(r.done, a) <==> base || Has(q.done, a))
    && (r.section.Outside? <==> q.section.Outside?)
    && (r.section.InPeer? ==> (r.section.peer.overlayIp == a <==> q.section.peer.overlayIp == a))
  }

  lemma ClosedHas(r: Reader, a: string)
    ensures Has(Closed(r), a) <==> Has(r.done, a) || (r.section.InPeer? && r.section.peer.overlayIp == a)
  {
    HasConcat(r.done, if r.section.InPeer? then [r.section.peer] else [], a);
    if r.section.InPeer? {
      assert [r.section.peer][0] == r.section.peer;
    }
  }

  lemma TakeAgrees(r: Reader, q: Reader, base: bool, a: string, line: Line)
    requires Agree(r, q, base, a)
    ensures Agree(Take(r, line), Take(q, line), base, a)
  {
    ClosedHas(r, a);
    ClosedHas(q, a);
  }

  lemma {:induction false} ReadAgrees(r: Reader, q: Reader, base: bool, a: string, text: string)
    requires Agree(r, q, base, a)
    ensures Agree(ReadText(r, text), ReadText(q, text), base, a)
    decreases |text|
  {
    hide Agree, Take, Classify;
    var line := Before(text, '\n');
    TakeAgrees(r, q, base, a, Classify(line));
    if |line| < |text| {
      ReadAgrees(Take(r, Classify(line)), Take(q, Classify(line)), base, a, text[|line| + 1..]);
    }
  }

  // ----- a stanza with any name -----------------------------------------------------

  lemma TakeSettings(r: Reader, p: PeerRow)
    requires PlainFields(p)
    ensures Take(Take(Take(Take(r, PeerHeader), Setting("PublicKey", p.publicKey)),
                      Setting("AllowedIPs", p.overlayIp + "/32")), Setting("PersistentKeepalive", "25"))
         == Reader("", InPeer(PeerRow(r.comment, p.publicKey, p.overlayIp)), Closed(r))
  {
    BeforeUnique(p.overlayIp + "/32", '/', p.overlayIp);
    assert "PublicKey"[0] == 'P' && "AllowedIPs"[0] == 'A';
    assert "PersistentKeepalive"[1] == 'e' && "PublicKey"[1] == 'u';
  }

  lemma ReadFour(r: Reader, l: seq<string>, rest: string)
    requires |l| == 4 && forall i :: 0 <= i < 4 ==> '\n' !in l[i]
    ensures ReadText(r, Unlines(l) + rest)
         == ReadText(Take(Take(Take(Take(r, Classify(l[0])), Classify(l[1])), Classify(l[2])), Classify(l[3])), rest)
  {
    hide ReadText, Classify;
    var r1 := Take(r, Classify(l[0]));
    var r2 := Take(r1, Classify(l[1]));
    var r3 := Take(r2, Classify(l[2]));
    ReadUnlines(r, l, rest);
    ReadUnlines(r1, l[1..], rest);
    assert l[1..][1..] == l[2..];
    ReadUnlines(r2, l[2..], rest);
    assert l[2..][1..] == l[3..];
    ReadUnlines(r3, l[3..], rest);
    assert l[3..][1..] == [];
    assert Unlines([]) + rest == rest;
  }

  lemma SettingsOneLine(p: PeerRow)
    requires PlainFields(p)
    ensures forall i :: 0 <= i < 4 ==> '\n' !in p.StanzaLines()[1..][i]
  {
  }

  lemma StanzaBelowName(p: PeerRow, rest: string)
    ensures p.ToStanza() + rest == "# " + p.identity + ['\n'] + (Unlines(p.StanzaLines()[1..]) + rest)
  {
    UnlinesParts("# " + p.identity, Unlines(p.StanzaLines()[1..]), rest);
  }

  /** The name is read as it comes; what follows it opens the peer's own section. */
  lemma ReadAnyStanza(r: Reader, p: PeerRow, rest: string)
    requires PlainFields(p)
    ensures var named := ReadText(r, "# " + p.identity);
            ReadText(r, p.ToStanza() + rest)
            == ReadText(Reader("", InPeer(PeerRow(named.comment, p.publicKey, p.overlayIp)), Closed(named)), rest)
  {
    hide ReadText, Classify, Take;
    var named := ReadText(r, "# " + p.identity);
    var l := p.StanzaLines();
    StanzaBelowName(p, rest);
    ReadConcat(r, "# " + p.identity, Unlines(l[1..]) + rest);
    SettingsOneLine(p);
    ClassifyTop(p);
    ClassifySettings(p);
    ReadFour(named, l[1..], rest);
    TakeSettings(named, p);
  }

  lemma NameAgrees(r: Reader, identity: string, a: string)
    requires a != "" && (r.section.InPeer? ==> r.section.peer.overlayIp != a)
    ensures Has(Closed(ReadText(r, "# " + identity)), a) <==> Has(r.done, a) || Claims(r.section.InPeer?, identity, a)
  {
    hide ReadText;
    var q := Reader("", if r.section.InPeer? then InPeer(PeerRow("", "", "")) else Outside, []);
    ReadAgrees(r, q, Has(r.done, a), a, "# " + identity);
    ClosedHas(ReadText(r, "# " + identity), a);
    ClosedHas(ReadName(r.section.InPeer?, identity), a);
  }

  lemma {:induction false} ReadPeersHas(r: Reader, peers: seq<PeerRow>, a: string)
    requires a != "" && !Has(peers, a) && (forall p :: p in peers ==> PlainFields(p))
    requires r.section.InPeer? ==> r.section.peer.overlayIp != a
    ensures Has(Closed(ReadText(r, Stanzas(peers))), a) <==> Has(r.done, a) || AnyClaims(r.section.InPeer?, peers, a)
    decreases |peers|
  {
    hide ReadText, Claims, Has;
    if peers == [] {
      ReadNothing(r);
      ClosedHas(r, a);
    } else {
      var p, rest := peers[0], Stanzas(peers[1..]);
      StanzaParts(p.ToStanza(), rest);
      ReadBlank(r, p.ToStanza() + rest);
      ReadAnyStanza(r, p, rest);
      NameAgrees(r, p.identity, a);
      HasFirst(peers, a);
      var named := ReadText(r, "# " + p.identity);
      ReadPeersHas(Reader("", InPeer(PeerRow(named.comment, p.publicKey, p.overlayIp)), Closed(named)), peers[1..], a);
    }
  }

  lemma ReadNothing(r: Reader)
    ensures ReadText(r, "") == r
  {
    assert Before("", '\n') == "";
  }

  lemma ReadBlank(r: Reader, rest: string)
    ensures ReadText(r, "" + ['\n'] + rest) == ReadText(r, rest)
  {
    ReadFirst(r, "", rest);
  }

  lemma HasFirst(peers: seq<PeerRow>, a: string)
    requires peers != []
    ensures Has(peers, a) <==> peers[0].overlayIp == a || Has(peers[1..], a)
  {
    assert peers == [peers[0]] + peers[1..];
    HasConcat([peers[0]], peers[1..], a);
    assert [peers[0]][0] == peers[0];
  }

  // ----- the printed file -----------------------------------------------------------

  /** For an address that no rendered peer has, the printed file, as a wg(8) reader reads it, gives
      some peer that address exactly when some rendered name, read on its own, does. */
  lemma ParsedHasExactly(conf: Layout, block: string, peers: seq<PeerRow>, a: string)
    requires ValidConf(conf) && conf.Clean(block)
    requires a != "" && !Has(peers, a) && forall p :: p in peers ==> PlainFields(p)
    ensures Has(ParsePeers(Rendered(conf, block, peers)), a) <==> AnyClaims(false, peers, a)
  {
    hide ReadText, Rendered, Has, AnyClaims;
    var r := ReadHead(conf, block, peers);
    ReadPeersHas(r, peers, a);
    NoneHas(a);
  }

  lemma NoneHas(a: string)
    ensures !Has([], a)
  {
  }

  /** A name on one line claims nothing. */
  lemma OneLineClaimsNothing(below: bool, identity: string, a: string)
    requires '\n' !in identity && a != ""
    ensures !Claims(below, identity, a)
  {
    ReadLast(Reader("", if below then InPeer(PeerRow("", "", "")) else Outside, []), "# " + identity);
    ClassifyComment(identity);
    ClosedHas(ReadName(below, identity), a);
  }

  lemma {:induction false} OneLineNamesClaimNothing(below: bool, peers: seq<PeerRow>, a: string)
    requires a != "" && forall p :: p in peers ==> '\n' !in p.identity
    ensures !AnyClaims(below, peers, a)
    decreases |peers|
  {
    hide Claims;
    if peers != [] {
      OneLineClaimsNothing(below, peers[0].identity, a);
      OneLineNamesClaimNothing(true, peers[1..], a);
    }
  }

  // ----- names that do --------------------------------------------------------------

  /** A name that goes on below its first line with the section of another peer. */
  function MultiLineName(key: string, a: string): string {
    Unlines(["x", PEER_HEADER, Field("PublicKey", key), Field("AllowedIPs", a + "/32")]) + "#"
  }

  lemma MultiLineNameParts(key: string, a: string)
    ensures "# " + MultiLineName(key, a)
         == Unlines(["# x", PEER_HEADER, Field("PublicKey", key), Field("AllowedIPs", a + "/32")]) + "#"
  {
    var tail := [PEER_HEADER, Field("PublicKey", key), Field("AllowedIPs", a + "/32")];
    assert ["x", PEER_HEADER, Field("PublicKey", key), Field("AllowedIPs", a + "/32")] == ["x"] + tail;
    assert ["# x", PEER_HEADER, Field("PublicKey", key), Field("AllowedIPs", a + "/32")] == ["# x"] + tail;
    assert (["x"] + tail)[1..] == tail && (["# x"] + tail)[1..] == tail;
    NameFront(Unlines(tail));
  }

  lemma NameFront(tail: string)
    ensures "# " + ("x" + "\n" + tail + "#") == "# x" + "\n" + tail + "#"
  {
  }

  lemma TakeNameLines(r: Reader, key: string, a: string)
    requires '/' !in a
    ensures var open := Take(Take(r, Comment("x")), PeerHeader);
            Take(Take(open, Setting("PublicKey", key)), Setting("AllowedIPs", a + "/32"))
            == Reader("", InPeer(PeerRow("x", key, a)), Closed(r))
  {
    BeforeUnique(a + "/32", '/', a);
    assert "PublicKey"[0] == 'P' && "AllowedIPs"[0] == 'A';
  }

  /** Wherever it is read, the name leaves a peer of its own with this key and address. */
  lemma ReadMultiLineName(r: Reader, key: string, a: string)
    requires '\n' !in key && '\n' !in a && '/' !in a
    ensures ReadText(r, "# " + MultiLineName(key, a)) == Reader("", InPeer(PeerRow("x", key, a)), Closed(r))
  {
    hide ReadText, Classify, Take;
    var l := ["# x", PEER_HEADER, Field("PublicKey", key), Field("AllowedIPs", a + "/32")];
    MultiLineNameParts(key, a);
    ReadFour(r, l, "#");
    ClassifyComment("x");
    assert "# " + "x" == "# x";
    ClassifyHeader();
    ClassifyKey(key);
    ClassifyAddress(a + "/32");
    TakeNameLines(r, key, a);
    ReadHash(Reader("", InPeer(PeerRow("x", key, a)), Closed(r)));
  }

  lemma MultiLineNameClaims(below: bool, key: string, a: string)
    requires '\n' !in key && '\n' !in a && '/' !in a
    ensures PeerRow("x", key, a) in Closed(ReadName(below, MultiLineName(key, a)))
    ensures Claims(below, MultiLineName(key, a), a)
  {
    hide ReadText, MultiLineName;
    var r := Reader("", if below then InPeer(PeerRow("", "", "")) else Outside, []);
    ReadMultiLineName(r, key, a);
    ClosedHas(ReadName(below, MultiLineName(key, a)), a);
  }

  /** Sections once closed stay among the peers read. */
  lemma {:induction false} DoneStays(r: Reader, text: string, p: PeerRow)
    requires p in r.done
    ensures p in ReadText(r, text).done
    decreases |text|
  {
    hide Classify;
    var line := Before(text, '\n');
    assert p in Take(r, Classify(line)).done;
    if |line| < |text| {
      DoneStays(Take(r, Classify(line)), text[|line| + 1..], p);
    }
  }

  lemma {:induction false} ReadPeersWithName(r: Reader, peers: seq<PeerRow>, i: nat, key: string, a: string)
    requires i < |peers| && peers[i].identity == MultiLineName(key, a)
    requires '\n' !in key && '\n' !in a && '/' !in a && forall p :: p in peers ==> PlainFields(p)
    ensures PeerRow("x", key, a) in Closed(ReadText(r, Stanzas(peers)))
    decreases |peers|
  {
    hide ReadText, MultiLineName;
    var p, rest := peers[0], Stanzas(peers[1..]);
    StanzaParts(p.ToStanza(), rest);
    ReadBlank(r, p.ToStanza() + rest);
    ReadAnyStanza(r, p, rest);
    var named := ReadText(r, "# " + p.identity);
    var after := Reader("", InPeer(PeerRow(named.comment, p.publicKey, p.overlayIp)), Closed(named));
    if i == 0 {
      ReadMultiLineName(r, key, a);
      assert PeerRow("x", key, a) in after.done;
      DoneStays(after, rest, PeerRow("x", key, a));
    } else {
      ReadPeersWithName(after, peers[1..], i - 1, key, a);
    }
  }

  /** With such a name among its peers the printed file reads as having one peer more, with that key
      and that address. */
  lemma ParsedHasNamedPeer(conf: Layout, block: string, peers: seq<PeerRow>, i: nat, key: string, a: string)
    requires ValidConf(conf) && conf.Clean(block)
    requires i < |peers| && peers[i].identity == MultiLineName(key, a)
    requires '\n' !in key && '\n' !in a && '/' !in a && forall p :: p in peers ==> PlainFields(p)
    ensures PeerRow("x", key, a) in ParsePeers(Rendered(conf, block, peers))
  {
    hide ReadText, Rendered, MultiLineName;
    var r := ReadHead(conf, block, peers);
    ReadPeersWithName(r, peers, i, key, a);
  }

  lemma {:induction false} DecimalIsShort(n: nat)
    requires n < 256
    ensures |Decimal(n)| <= 3
  {
    assert n / 10 < 26 && n / 10 / 10 < 3;
    assert n >= 10 ==> |Decimal(n)| == |Decimal(n / 10)| + 1;
    assert n >= 100 ==> |Decimal(n / 10)| == |Decimal(n / 10 / 10)| + 1;
  }

  lemma JoinFourLength(w: string, x: string, y: string, z: string)
    ensures |Join([w, x, y, z], '.')| == |w| + |x| + |y| + |z| + 3
  {
    JoinFirst(w, [x, y, z], '.');
    JoinFirst(x, [y, z], '.');
    JoinFirst(y, [z], '.');
    assert [w] + [x, y, z] == [w, x, y, z] && [x] + [y, z] == [x, y, z] && [y] + [z] == [y, z];
  }

  lemma DottedIsShort(ip: Address)
    ensures 1 <= |Dotted(ip)| <= 15
  {
    hide Decimal;
    var o := Octets(ip);
    OctetsOfAddress(ip);
    DecimalIsShort(o[0]);
    DecimalIsShort(o[1]);
    DecimalIsShort(o[2]);
    DecimalIsShort(o[3]);
    JoinFourLength(Decimal(o[0]), Decimal(o[1]), Decimal(o[2]), Decimal(o[3]));
  }

  lemma UnlinesFourLength(w: string, x: string, y: string, z: string)
    ensures |Unlines([w, x, y, z])| == |w| + |x| + |y| + |z| + 4
  {
    assert [w, x, y, z][1..] == [x, y, z] && [x, y, z][1..] == [y, z] && [y, z][1..] == [z] && [z][1..] == [];
    assert |Unlines([z])| == |z| + 1;
    assert |Unlines([y, z])| == |y| + 1 + |Unlines([z])|;
    assert |Unlines([x, y, z])| == |x| + 1 + |Unlines([y, z])|;
  }

  /** The request schema lets it through, with every key and every address. */
  lemma MultiLineNameFits(key: string, ip: Address)
    requires |key| == 44
    ensures 1 <= |MultiLineName(key, Dotted(ip))| <= 128
  {
    hide Dotted;
    DottedIsShort(ip);
    UnlinesFourLength("x", PEER_HEADER, Field("PublicKey", key), Field("AllowedIPs", Dotted(ip) + "/32"));
  }

  lemma ReadHash(r: Reader)
    ensures ReadText(r, "#") == r.(comment := "")
  {
    ReadLast(r, "#");
  }

  /** Length is all the request schema checks of an identity, and one with a line break does not
      survive, whatever accepted key and address stand beside it. */
  lemma BrokenIdentityIsLost(conf: Layout, block: string, key: string, ip: Address)
    requires ValidConf(conf) && conf.Clean(block)
    requires |key| == 44 && KeyCodec.ValidatePublicKey(key).Success?
    ensures var p := PeerRow("a\nb", key, Dotted(ip)); ParsePeers(Rendered(conf, block, [p])) != [p]
  {
    hide Rendered, ReadText, KeyCodec.ValidatePublicKey, Dotted;
    var p := PeerRow("a\nb", key, Dotted(ip));
    assert p.identity[1] == '\n' && p in [p];
    KeyCodec.AcceptedKeyIsOneLine(key);
    DottedHasNo(ip, '\n');
    DottedHasNo(ip, '/');
    ParseBackExactly(conf, block, [p]);
  }
}

/** A section reader for the wg(8) configuration format, in the `Key = value` form the tools
    print, and the proof that it recovers the peers the printer wrote. */
module WgParse {
  import opened Text
  import opened ManagedText
  import opened WgConfig

  datatype Line = PeerHeader | OtherHeader | Comment(text: string) | Setting(key: string, value: string) | Other

  function Classify(line: string): Line {
    if line == "" then Other
    else if line[0] == '[' then (if line == PEER_HEADER then PeerHeader else OtherHeader)
    else if line[0] == '#' then Comment(if |line| > 1 && line[1] == ' ' then line[2..] else line[1..])
    else
      var key := Before(line, ' ');
      var rest := line[|key|..];
      if " = " <= rest then Setting(key, rest[3..]) else Other
  }

  datatype Section = Outside | InPeer(peer: PeerRow)

  /** The last comment, the open section and the peers of the sections closed so far. */
  datatype Reader = Reader(comment: string, section: Section, done: seq<PeerRow>)

  function Closed(r: Reader): seq<PeerRow> {
    r.done + (if r.section.InPeer? then [r.section.peer] else [])
  }

  /** A peer is named by the comment above its header. */
  function Take(r: Reader, line: Line): Reader {
    match line
    case PeerHeader => Reader("", InPeer(PeerRow(r.comment, "", "")), Closed(r))
    case OtherHeader => Reader("", Outside, Closed(r))
    case Comment(text) => r.(comment := text)
    case Other => r
    case Setting(key, value) =>
      if r.section.Outside? then r
      else if key == "PublicKey" then
        r.(section := InPeer(r.section.peer.(publicKey := value)))
      else if key == "AllowedIPs" then
        r.(section := InPeer(r.section.peer.(overlayIp := Before(value, '/'))))
      else r
  }

  /** Read a text line by line. */
  function ReadText(r: Reader, text: string): Reader
    decreases |text|
  {
    var line := Before(text, '\n');
    var r' := Take(r, Classify(line));
    if |line| == |text| then r' else ReadText(r', text[|line| + 1..])
  }

  function ParsePeers(text: string): seq<PeerRow> {
    Closed(ReadText(Reader("", Outside, []), text))
  }

  lemma ReadFirst(r: Reader, line: string, rest: string)
    requires '\n' !in line
    ensures ReadText(r, line + ['\n'] + rest) == ReadText(Take(r, Classify(line)), rest)
  {
    var text := line + ['\n'] + rest;
    BeforeUnique(text, '\n', line);
    assert text[|line| + 1..] == rest;
  }

  lemma ReadLast(r: Reader, line: string)
    requires '\n' !in line
    ensures ReadText(r, line) == Take(r, Classify(line))
  {
    BeforeUnique(line, '\n', line);
  }

  lemma CutLine(x: string) returns (line: string, rest: string)
    requires '\n' in x
    ensures '\n' !in line && x == line + ['\n'] + rest
  {
    line := Before(x, '\n');
    assert line == x[..|line|] && x[..|x|] == x;
    rest := x[|line| + 1..];
  }

  lemma LineParts(line: string, rest: string, y: string)
    ensures (line + ['\n'] + rest) + ['\n'] + y == line + ['\n'] + (rest + ['\n'] + y)
  {
  }

  lemma {:induction false} ReadConcat(r: Reader, x: string, y: string)
    ensures ReadText(r, x + ['\n'] + y) == ReadText(ReadText(r, x), y)
    decreases |x|
  {
    if '\n' in x {
      var line, rest := CutLine(x);
      ReadConcat(Take(r, Classify(line)), rest, y);
      ReadConcatStep(r, line, rest, y);
    } else {
      ReadLast(r, x);
      ReadFirst(r, x, y);
    }
  }

  lemma ReadConcatStep(r: Reader, line: string, rest: string, y: string)
    requires '\n' !in line
    requires var r' := Take(r, Classify(line)); ReadText(r', rest + ['\n'] + y) == ReadText(ReadText(r', rest), y)
    ensures var x := line + ['\n'] + rest; ReadText(r, x + ['\n'] + y) == ReadText(ReadText(r, x), y)
  {
    ReadFirst(r, line, rest);
    ReadFirst(r, line, rest + ['\n'] + y);
    LineParts(line, rest, y);
  }

  // ----- the interface block holds no peer ------------------------------------------

  lemma FreeSuffix(s: string, n: nat, pattern: string)
    requires n <= |s| && Free(s, pattern)
    ensures Free(s[n..], pattern)
  {
    forall i: nat | i <= |s[n..]| ensures !OccursAt(s[n..], pattern, i) {
      ShiftOccurs(s, n, pattern, i);
    }
  }

  lemma ShiftOccurs(s: string, n: nat, pattern: string, i: nat)
    requires n <= |s|
    ensures OccursAt(s[n..], pattern, i) <==> OccursAt(s, pattern, n + i)
  {
    if n + i + |pattern| <= |s| {
      assert s[n + i..n + i + |pattern|] == s[n..][i..i + |pattern|];
    }
  }

  lemma NotFreeOfItself(pattern: string)
    ensures !Free(pattern, pattern)
  {
    assert pattern[0..0 + |pattern|] == pattern;
    assert OccursAt(pattern, pattern, 0);
  }

  lemma {:induction false} NoPeerRead(r: Reader, text: string)
    requires r.section.Outside? && r.done == []
    requires Free(text, PEER_HEADER)
    ensures var r' := ReadText(r, text); r'.section.Outside? && r'.done == []
    decreases |text|
  {
    var line := Before(text, '\n');
    FreePrefix(text, line, PEER_HEADER);
    NotFreeOfItself(PEER_HEADER);
    if |line| < |text| {
      FreeSuffix(text, |line| + 1, PEER_HEADER);
      NoPeerRead(Take(r, Classify(line)), text[|line| + 1..]);
    }
  }

  // ----- one stanza -----------------------------------------------------------------

  /** Key and address are free of line breaks, and the address has no slash. */
  predicate PlainFields(p: PeerRow) {
    '\n' !in p.publicKey && '\n' !in p.overlayIp && '/' !in p.overlayIp
  }

  lemma FieldParts(key: string, value: string)
    ensures Field(key, value)[|key|..] == " = " + value
    ensures key <= Field(key, value)
    ensures Field(key, value)[|key|] == ' '
  {
  }

  lemma ClassifyField(key: string, value: string)
    requires ' ' !in key && key != "" && key[0] != '[' && key[0] != '#'
    ensures Classify(Field(key, value)) == Setting(key, value)
  {
    FieldParts(key, value);
    BeforeUnique(Field(key, value), ' ', key);
    assert (" = " + value)[3..] == value;
  }

  lemma ClassifyComment(text: string)
    ensures Classify("# " + text) == Comment(text)
  {
    assert ("# " + text)[2..] == text;
  }

  lemma ClassifyHeader()
    ensures Classify(PEER_HEADER) == PeerHeader
  {
    assert PEER_HEADER[0] == '[';
  }

  lemma ClassifyKey(value: string)
    ensures Classify(Field("PublicKey", value)) == Setting("PublicKey", value)
  {
    ClassifyField("PublicKey", value);
  }

  lemma ClassifyAddress(value: string)
    ensures Classify(Field("AllowedIPs", value)) == Setting("AllowedIPs", value)
  {
    ClassifyField("AllowedIPs", value);
  }

  lemma ClassifyKeepalive(value: string)
    ensures Classify(Field("PersistentKeepalive", value)) == Setting("PersistentKeepalive", value)
  {
    ClassifyField("PersistentKeepalive", value);
  }

  lemma ClassifyTop(p: PeerRow)
    ensures Classify(p.StanzaLines()[0]) == Comment(p.identity) && Classify(p.StanzaLines()[1]) == PeerHeader
  {
    ClassifyComment(p.identity);
    ClassifyHeader();
  }

  lemma ClassifySettings(p: PeerRow)
    ensures var l := p.StanzaLines();
            && Classify(l[2]) == Setting("PublicKey", p.publicKey)
            && Classify(l[3]) == Setting("AllowedIPs", p.overlayIp + "/32")
            && Classify(l[4]) == Setting("PersistentKeepalive", "25")
  {
    ClassifyKey(p.publicKey);
    ClassifyAddress(p.overlayIp + "/32");
    ClassifyKeepalive("25");
  }

  /** The effect of a stanza, line by line. */
  lemma TakeStanza(r: Reader, p: PeerRow)
    requires PlainFields(p)
    ensures Take(Take(Take(Take(Take(r, Comment(p.identity)), PeerHeader), Setting("PublicKey", p.publicKey)),
                           Setting("AllowedIPs", p.overlayIp + "/32")), Setting("PersistentKeepalive", "25"))
         == Reader("", InPeer(p), Closed(r))
  {
    BeforeUnique(p.overlayIp + "/32", '/', p.overlayIp);
    assert "PublicKey"[0] == 'P' && "AllowedIPs"[0] == 'A';
    assert "PersistentKeepalive"[1] == 'e' && "PublicKey"[1] == 'u';
  }

  lemma OneLine(p: PeerRow)
    requires '\n' !in p.identity && PlainFields(p)
    ensures forall i :: 0 <= i < 5 ==> '\n' !in p.StanzaLines()[i]
  {
  }

  lemma UnlinesParts(line: string, lines: string, rest: string)
    ensures line + "\n" + lines + rest == line + ['\n'] + (lines + rest)
  {
  }

  lemma ReadUnlines(r: Reader, lines: seq<string>, rest: string)
    requires lines != [] && '\n' !in lines[0]
    ensures ReadText(r, Unlines(lines) + rest) == ReadText(Take(r, Classify(lines[0])), Unlines(lines[1..]) + rest)
  {
    UnlinesParts(lines[0], Unlines(lines[1..]), rest);
    ReadFirst(r, lines[0], Unlines(lines[1..]) + rest);
  }

  lemma ReadStanza(r: Reader, p: PeerRow, rest: string)
    requires '\n' !in p.identity && PlainFields(p)
    ensures ReadText(r, p.ToStanza() + rest) == ReadText(Reader("", InPeer(p), Closed(r)), rest)
  {
    var l := p.StanzaLines();
    OneLine(p);
    ClassifyTop(p);
    ClassifySettings(p);
    TakeStanza(r, p);
    ReadFive(r, l, rest);
  }

  lemma ReadFive(r: Reader, l: seq<string>, rest: string)
    requires |l| == 5 && forall i :: 0 <= i < 5 ==> '\n' !in l[i]
    ensures ReadText(r, Unlines(l) + rest)
         == ReadText(Take(Take(Take(Take(Take(r, Classify(l[0])), Classify(l[1])), Classify(l[2])), Classify(l[3])),
                          Classify(l[4])), rest)
  {
    var r1 := Take(r, Classify(l[0]));
    var r2 := Take(r1, Classify(l[1]));
    var r3 := Take(r2, Classify(l[2]));
    var r4 := Take(r3, Classify(l[3]));
    ReadUnlines(r, l, rest);
    ReadUnlines(r1, l[1..], rest);
    assert l[1..][1..] == l[2..];
    ReadUnlines(r2, l[2..], rest);
    assert l[2..][1..] == l[3..];
    ReadUnlines(r3, l[3..], rest);
    assert l[3..][1..] == l[4..];
    ReadUnlines(r4, l[4..], rest);
    assert l[4..][1..] == [];
    assert Unlines([]) + rest == rest;
  }

  lemma PrependPeer(done: seq<PeerRow>, peers: seq<PeerRow>)
    requires peers != []
    ensures done + [peers[0]] + peers[1..] == done + peers
  {
  }

  lemma StanzaParts(stanza: string, rest: string)
    ensures "\n" + stanza + rest == "" + ['\n'] + (stanza + rest)
  {
  }

  lemma {:induction false} ReadPeers(r: Reader, peers: seq<PeerRow>)
    requires forall p :: p in peers ==> '\n' !in p.identity && PlainFields(p)
    ensures Closed(ReadText(r, Stanzas(peers))) == Closed(r) + peers
    decreases |peers|
  {
    if peers == [] {
      assert Before("", '\n') == "";
    } else {
      var p, rest := peers[0], Stanzas(peers[1..]);
      StanzaParts(p.ToStanza(), rest);
      ReadFirst(r, "", p.ToStanza() + rest);
      ReadStanza(r, p, rest);
      ReadPeers(Reader("", InPeer(p), Closed(r)), peers[1..]);
      PrependPeer(Closed(r), peers);
    }
  }

  // ----- printer and parser ---------------------------------------------------------

  lemma LayoutParts(b: string, marker: string, body: string)
    ensures b + "\n\n" + marker + "\n" + body == b + ['\n'] + ("" + ['\n'] + (marker + ['\n'] + body))
  {
  }

  /** No peer is read above the stanzas. */
  lemma ReadHead(conf: Layout, block: string, peers: seq<PeerRow>) returns (r: Reader)
    requires ValidConf(conf) && conf.Clean(block)
    ensures r.section.Outside? && r.done == []
    ensures ReadText(Reader("", Outside, []), Rendered(conf, block, peers)) == ReadText(r, Stanzas(peers))
  {
    var start := Reader("", Outside, []);
    var b, body := Rstrip(block), Stanzas(peers);
    FreePrefix(block, b, PEER_HEADER);
    NoPeerRead(start, b);
    var r1 := ReadText(start, b);
    LayoutParts(b, conf.marker, body);
    ReadConcat(start, b, "" + ['\n'] + (conf.marker + ['\n'] + body));
    ReadFirst(r1, "", conf.marker + ['\n'] + body);
    ReadFirst(r1, conf.marker, body);
    assert conf.marker[0] == '#';
    r := Take(r1, Classify(conf.marker));
  }

  /** Reading a printed file recovers exactly its peers, in order. */
  lemma ParseOfRendered(conf: Layout, block: string, peers: seq<PeerRow>)
    requires ValidConf(conf) && conf.Clean(block)
    requires forall p :: p in peers ==> '\n' !in p.identity && PlainFields(p)
    ensures ParsePeers(Rendered(conf, block, peers)) == peers
  {
    var r := ReadHead(conf, block, peers);
    ReadPeers(r, peers);
  }

  predicate NamesOneLine(r: Reader) {
    && '\n' !in r.comment
    && (r.section.InPeer? ==> '\n' !in r.section.peer.identity)
    && forall p :: p in r.done ==> '\n' !in p.identity
  }

  lemma {:induction false} NamesStayOneLine(r: Reader, text: string)
    requires NamesOneLine(r)
    ensures NamesOneLine(ReadText(r, text))
    decreases |text|
  {
    var line := Before(text, '\n');
    assert NamesOneLine(Take(r, Classify(line)));
    if |line| < |text| {
      NamesStayOneLine(Take(r, Classify(line)), text[|line| + 1..]);
    }
  }

  /** The printed file reads back as its peers exactly when no identity has a line break. An
      enrolment only bounds the length of an identity, so this is a condition on the input. */
  lemma ParseBackExactly(conf: Layout, block: string, peers: seq<PeerRow>)
    requires ValidConf(conf) && conf.Clean(block)
    requires forall p :: p in peers ==> PlainFields(p)
    ensures ParsePeers(Rendered(conf, block, peers)) == peers <==> forall p :: p in peers ==> '\n' !in p.identity
  {
    NamesStayOneLine(Reader("", Outside, []), Rendered(conf, block, peers));
    if forall p :: p in peers ==> '\n' !in p.identity {
      ParseOfRendered(conf, block, peers);
    }
  }

  /** Different peer lists give different files. */
  lemma RenderedInjective(conf: Layout, block: string, peers: seq<PeerRow>, other: seq<PeerRow>)
    requires ValidConf(conf) && conf.Clean(block)
    requires forall p :: p in peers + other ==> '\n' !in p.identity && PlainFields(p)
    requires Rendered(conf, block, peers) == Rendered(conf, block, other)
    ensures peers == other
  {
    ParseOfRendered(conf, block, peers);
    ParseOfRendered(conf, block, other);
  }
}

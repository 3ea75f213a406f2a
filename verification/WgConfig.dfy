/** The text of wg0.conf: printing it, and cutting the hand-written part back out of it. */
module WgConfig {
  import opened Wrappers
  import opened Text
  import opened ManagedText

  /** Lines of text, each ended by a newline. */
  function Unlines(lines: seq<string>): string {
    if lines == [] then "" else lines[0] + "\n" + Unlines(lines[1..])
  }

  function Field(key: string, value: string): string {
    key + " = " + value
  }

  datatype PeerRow = PeerRow(identity: string, publicKey: string, overlayIp: string) {

    function StanzaLines(): seq<string> {
      ["# " + identity,
       PEER_HEADER,
       Field("PublicKey", publicKey),
       Field("AllowedIPs", overlayIp + "/32"),
       Field("PersistentKeepalive", "25")]
    }

    function ToStanza(): string {
      Unlines(StanzaLines())
    }
  }

  const PEER_HEADER: string := "[Peer]"

  /** The layout of wg0.conf. The facts below hold of any marker without line breaks. */
  const WG_CONF: Layout :=
    Layout("#" + " --- managed peers " + "(do not edit below; " + "regenerated from Postgres) ---", PEER_HEADER)

  predicate ValidConf(conf: Layout) {
    conf.Valid() && conf.header == PEER_HEADER && "#" <= conf.marker && Trimmed(conf.marker)
  }

  /** The text of a stanza. */
  lemma StanzaText(p: PeerRow)
    ensures p.ToStanza() == ("# " + p.identity + "\n") + "[Peer]\n" + ("PublicKey = " + p.publicKey + "\n")
                          + ("AllowedIPs = " + p.overlayIp + "/32\n") + "PersistentKeepalive = 25\n"
  {
    hide Unlines, Field;
    var l := p.StanzaLines();
    UnlinesOfFive(l);
    FieldLine("PublicKey", p.publicKey, "PublicKey = ");
    FieldLine("AllowedIPs", p.overlayIp + "/32", "AllowedIPs = ");
    FieldLine("PersistentKeepalive", "25", "PersistentKeepalive = ");
    EndOfLine(p.overlayIp);
    JoinFive(l[0] + "\n", l[1] + "\n", l[2] + "\n", l[3] + "\n", l[4] + "\n");
  }

  lemma FieldLine(key: string, value: string, start: string)
    requires start == key + " = "
    ensures Field(key, value) + "\n" == start + value + "\n"
  {
  }

  lemma EndOfLine(ip: string)
    ensures "AllowedIPs = " + (ip + "/32") + "\n" == "AllowedIPs = " + ip + "/32\n"
    ensures PEER_HEADER + "\n" == "[Peer]\n" && "PersistentKeepalive = " + "25" + "\n" == "PersistentKeepalive = 25\n"
  {
  }

  lemma UnlinesOfFive(l: seq<string>)
    requires |l| == 5
    ensures Unlines(l) == (l[0] + "\n") + ((l[1] + "\n") + ((l[2] + "\n") + ((l[3] + "\n") + (l[4] + "\n"))))
  {
    assert Unlines(l[4..]) == l[4] + "\n" + Unlines([]) == l[4] + "\n";
    assert Unlines(l[3..]) == l[3] + "\n" + Unlines(l[4..]);
    assert Unlines(l[2..]) == l[2] + "\n" + Unlines(l[3..]);
    assert Unlines(l[1..]) == l[1] + "\n" + Unlines(l[2..]);
  }

  lemma JoinFive(v: string, w: string, x: string, y: string, z: string)
    ensures v + (w + (x + (y + z))) == v + w + x + y + z
  {
  }

  lemma MarkerStart()
    ensures "#" + " --- managed peers " == "# --- managed peers "
  {
  }

  lemma MarkerMiddle()
    ensures "# --- managed peers " + "(do not edit below; " == "# --- managed peers (do not edit below; "
  {
  }

  lemma MarkerEnds()
    ensures "# --- managed peers (do not edit below; " + "regenerated from Postgres) ---"
         == "# --- managed peers (do not edit below; regenerated from Postgres) ---"
  {
  }

  /** The line above the managed part. */
  lemma MarkerText()
    ensures WG_CONF.marker == "# --- managed peers (do not edit below; regenerated from Postgres) ---"
    ensures WG_CONF.header == "[Peer]"
  {
    MarkerStart();
    MarkerMiddle();
    MarkerEnds();
  }

  // ----- reading the interface block ------------------------------------------------

  datatype ReadError = MissingConfig

  function InterfaceBlock(conf: Layout, text: string): string {
    conf.Head(Universal(text))
  }

  /** Reading wg0.conf in text mode and keeping what stands above the managed part. */
  function ReadInterfaceBlock(conf: Layout, file: Option<string>): Result<string, ReadError> {
    match file
    case None => Failure(MissingConfig)
    case Some(text) => Success(InterfaceBlock(conf, text))
  }

  // ----- printing -------------------------------------------------------------------

  /** The stanzas, each after a blank line. */
  function Stanzas(peers: seq<PeerRow>): string {
    if peers == [] then "" else "\n" + peers[0].ToStanza() + Stanzas(peers[1..])
  }

  /** The text of the file with the given interface block and peers. */
  function Rendered(conf: Layout, block: string, peers: seq<PeerRow>): string {
    conf.Print(block, Stanzas(peers))
  }

  lemma {:induction false} JoinAppend(parts: seq<string>, last: string, c: char)
    requires |parts| >= 1
    ensures Join(parts + [last], c) == Join(parts, c) + [c] + last
  {
    assert (parts + [last])[1..] == parts[1..] + [last];
    if |parts| > 1 {
      JoinAppend(parts[1..], last, c);
    }
  }

  lemma {:induction false} StanzasAppend(peers: seq<PeerRow>, p: PeerRow)
    ensures Stanzas(peers + [p]) == Stanzas(peers) + "\n" + p.ToStanza()
  {
    if peers == [] {
      assert Stanzas([p]) == "\n" + p.ToStanza() + Stanzas([p][1..]);
    } else {
      assert (peers + [p])[1..] == peers[1..] + [p];
      StanzasAppend(peers[1..], p);
    }
  }

  /** A text that ends with a visible character and then one newline. */
  predicate LineEnded(s: string) {
    |s| >= 2 && s[|s| - 1] == '\n' && !IsSpace(s[|s| - 2])
  }

  lemma RstripLine(s: string)
    requires LineEnded(s)
    ensures Rstrip(s) + "\n" == s
  {
    RstripUnique(s, s[..|s| - 1]);
  }

  lemma {:induction false} UnlinesEnd(lines: seq<string>)
    requires |lines| >= 1
    requires lines[|lines| - 1] != "" && Trimmed(lines[|lines| - 1])
    ensures LineEnded(Unlines(lines))
  {
    if |lines| == 1 {
      assert Unlines(lines) == lines[0] + "\n";
    } else {
      UnlinesEnd(lines[1..]);
    }
  }

  lemma StanzaEnd(p: PeerRow)
    ensures LineEnded(p.ToStanza())
  {
    var last := Field("PersistentKeepalive", "25");
    assert last[|last| - 1] == '5';
    UnlinesEnd(p.StanzaLines());
  }

  /** The join of the four fixed parts. */
  lemma JoinHead(b: string, marker: string)
    ensures Join([b, "", marker, ""], '\n') == b + "\n\n" + marker + "\n"
  {
    JoinAppend([b], "", '\n');
    JoinAppend([b, ""], marker, '\n');
    JoinAppend([b, "", marker], "", '\n');
    assert [b] + [""] == [b, ""];
    assert [b, ""] + [marker] == [b, "", marker];
    assert [b, "", marker] + [""] == [b, "", marker, ""];
    HeadParts(b, marker);
  }

  lemma HeadParts(b: string, marker: string)
    ensures b + ['\n'] + "" + ['\n'] + marker + ['\n'] + "" == b + "\n\n" + marker + "\n"
  {
  }

  lemma LineEndedSuffix(front: string, s: string)
    requires LineEnded(s)
    ensures LineEnded(front + s)
  {
  }

  lemma MarkerEnd(b: string, marker: string)
    requires marker != "" && Trimmed(marker)
    ensures LineEnded(b + "\n\n" + marker + "\n")
  {
    assert LineEnded(marker + "\n");
    LineEndedSuffix(b + "\n\n", marker + "\n");
    assert b + "\n\n" + marker + "\n" == b + "\n\n" + (marker + "\n");
  }

  lemma RenderedAppend(conf: Layout, block: string, peers: seq<PeerRow>, p: PeerRow)
    ensures Rendered(conf, block, peers + [p]) == Rendered(conf, block, peers) + "\n" + p.ToStanza()
  {
    StanzasAppend(peers, p);
    var top := Rstrip(block) + "\n\n" + conf.marker + "\n";
    assert top + (Stanzas(peers) + "\n" + p.ToStanza()) == top + Stanzas(peers) + "\n" + p.ToStanza();
  }

  /** Assemble the parts in a loop, join them with newlines, strip and end with one newline. */
  method RenderConfig(conf: Layout, block: string, peers: seq<PeerRow>) returns (text: string)
    requires conf.marker != "" && Trimmed(conf.marker)
    ensures text == Rendered(conf, block, peers)
  {
    var parts := [Rstrip(block), "", conf.marker, ""];
    JoinHead(Rstrip(block), conf.marker);
    MarkerEnd(Rstrip(block), conf.marker);
    for i := 0 to |peers|
      invariant |parts| == 4 + i
      invariant Join(parts, '\n') == Rendered(conf, block, peers[..i])
      invariant LineEnded(Join(parts, '\n'))
    {
      JoinAppend(parts, peers[i].ToStanza(), '\n');
      RenderedAppend(conf, block, peers[..i], peers[i]);
      StanzaEnd(peers[i]);
      LineEndedSuffix(Join(parts, '\n') + "\n", peers[i].ToStanza());
      assert peers[..i] + [peers[i]] == peers[..i + 1];
      parts := parts + [peers[i].ToStanza()];
    }
    assert peers[..|peers|] == peers;
    RstripLine(Join(parts, '\n'));
    text := Rstrip(Join(parts, '\n')) + "\n";
  }

  // ----- print, then strip ----------------------------------------------------------

  /** For every block free of the marker, of [Peer] and of carriage returns, reading a printed
      file back gives the right-stripped block and one newline. */
  lemma ReadOfRendered(conf: Layout, block: string, peers: seq<PeerRow>)
    requires conf.Valid() && conf.Clean(block)
    ensures ReadInterfaceBlock(conf, Some(Rendered(conf, block, peers))) == Success(Rstrip(block) + "\n")
  {
    conf.HeadOfPrint(block, Stanzas(peers));
  }

  /** Every block the reader returns can be printed and found again. */
  lemma ReaderOutputIsClean(conf: Layout, text: string)
    requires conf.Valid()
    ensures conf.Clean(InterfaceBlock(conf, text))
    ensures Rstrip(InterfaceBlock(conf, text)) + "\n" == InterfaceBlock(conf, text)
  {
    conf.HeadIsClean(text);
  }

  /** The text a sync writes over a file. */
  function Synced(conf: Layout, text: string, peers: seq<PeerRow>): string {
    Rendered(conf, InterfaceBlock(conf, text), peers)
  }

  /** A sync keeps the interface block, and what a later sync writes does not depend on the
      syncs before it: in particular sync is byte-for-byte idempotent. */
  lemma SyncIsIdempotent(conf: Layout, text: string, peers: seq<PeerRow>, later: seq<PeerRow>)
    requires conf.Valid()
    ensures InterfaceBlock(conf, Synced(conf, text, peers)) == InterfaceBlock(conf, text)
    ensures Synced(conf, Synced(conf, text, peers), later) == Synced(conf, text, later)
    ensures Synced(conf, Synced(conf, text, peers), peers) == Synced(conf, text, peers)
  {
    conf.RewriteKeepsHead(text, Stanzas(peers), Stanzas(later));
    conf.RewriteKeepsHead(text, Stanzas(peers), Stanzas(peers));
  }

  /** The layout the program uses is one of those the facts are about. */
  lemma WgConfIsValid()
    ensures ValidConf(WG_CONF)
  {
    OpeningHasNoBreak();
    MiddleHasNoBreak();
    EndHasNoBreak();
  }

  lemma OpeningHasNoBreak()
    ensures '\n' !in " --- managed peers " && '\r' !in " --- managed peers "
  {
  }

  lemma MiddleHasNoBreak()
    ensures '\n' !in "(do not edit below; " && '\r' !in "(do not edit below; "
  {
  }

  lemma EndHasNoBreak()
    ensures '\n' !in "regenerated from Postgres) ---" && '\r' !in "regenerated from Postgres) ---"
    ensures Trimmed("regenerated from Postgres) ---") && "regenerated from Postgres) ---" != ""
  {
  }
}

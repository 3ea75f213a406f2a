/** When the hand-written part of wg0.conf survives the first sync byte for byte. */
module Verbatim {
  import opened Text
  import opened ManagedText
  import opened WgConfig

  /** What stands in the file above the managed part, as it is on disk. */
  function HandWritten(conf: Layout, text: string): string {
    text[..conf.Cut(text)]
  }

  /** No carriage return, and nothing but up to two newlines after the last visible character. */
  predicate EndsPlainly(kept: string) {
    '\r' !in kept && kept[|Rstrip(kept)|..] in {"", "\n", "\n\n"}
  }

  // ----- cutting before or after reading --------------------------------------------

  /** Cutting the text on disk and then reading it, or reading and then cutting, is the same. */
  lemma CutOfUniversal(conf: Layout, text: string)
    requires ValidConf(conf)
    ensures Universal(text)[..conf.Cut(Universal(text))] == Universal(HandWritten(conf, text))
  {
    hide Universal, OccursAt;
    var kept, tail := HandWritten(conf, text), text[conf.Cut(text)..];
    assert text == kept + tail;
    TailStarts(conf, text);
    UniversalConcat(kept, tail);
    var content, top := Universal(text), Universal(kept);
    forall i: nat | i < |top| ensures !OccursAt(content, conf.marker, i) && !OccursAt(content, conf.header, i) {
      NotReadBefore(kept, tail, conf.marker, i);
      NotReadBefore(kept, tail, conf.header, i);
    }
    if tail != "" {
      ReadAtCut(top, tail, if conf.marker <= tail then conf.marker else conf.header);
    }
    CutAt(conf, content, top, Universal(tail));
  }

  lemma ReadAtCut(top: string, tail: string, p: string)
    requires p <= tail && '\r' !in p
    ensures OccursAt(top + Universal(tail), p, |top|)
  {
    hide Universal;
    assert tail == p + tail[|p|..];
    UniversalPrefix(p, tail[|p|..]);
    assert (top + Universal(tail))[|top|..|top| + |p|] == p;
  }

  lemma CutAt(conf: Layout, content: string, top: string, rest: string)
    requires conf.Valid() && content == top + rest
    requires forall i: nat | i < |top| :: !OccursAt(content, conf.marker, i) && !OccursAt(content, conf.header, i)
    requires rest != "" ==> OccursAt(content, conf.marker, |top|) || OccursAt(content, conf.header, |top|)
    ensures content[..conf.Cut(content)] == top
  {
    hide Find;
    var cut := conf.Cut(content);
    assert cut >= |top|;
    assert rest != "" ==> cut == |top|;
  }

  lemma TailStarts(conf: Layout, text: string)
    requires ValidConf(conf)
    ensures var tail := text[conf.Cut(text)..];
            tail != "" ==> tail[0] != '\n' && (conf.marker <= tail || conf.header <= tail)
  {
    var cut := conf.Cut(text);
    if cut < |text| {
      var p := if OccursAt(text, conf.marker, cut) then conf.marker else conf.header;
      assert text[cut..][..|p|] == text[cut..cut + |p|];
      assert p[0] in p;
    }
  }

  lemma NotReadBefore(kept: string, tail: string, p: string, i: nat)
    requires p != "" && '\n' !in p && '\r' !in p && (tail == "" || tail[0] != '\n')
    requires forall j: nat | j < |kept| :: !OccursAt(kept + tail, p, j)
    requires i < |Universal(kept)|
    ensures !OccursAt(Universal(kept) + Universal(tail), p, i)
  {
    if OccursAt(Universal(kept) + Universal(tail), p, i) {
      var j := ReadBefore(kept, tail, p, i);
    }
  }

  // ----- kept or not ----------------------------------------------------------------

  /** Without a carriage return: the white space at the end decides. */
  lemma KeptWithoutReturn(kept: string, rest: string)
    requires '\r' !in kept && rest != "" && !IsSpace(rest[0])
    ensures kept <= Rstrip(kept) + "\n\n" + rest <==> EndsPlainly(kept)
  {
    hide IsSpace, Rstrip;
    var b, w := Rstrip(kept), kept[|Rstrip(kept)|..];
    assert kept == b + w;
    var printed := b + "\n\n" + rest;
    assert printed[|b|..] == "\n\n" + rest;
    SpaceInFront(w, rest);
    PrefixAfter(b, w, printed);
  }

  lemma PrefixAfter(b: string, w: string, printed: string)
    requires b <= printed
    ensures b + w <= printed <==> w <= printed[|b|..]
  {
    if b + w <= printed {
      assert printed[|b|..][..|w|] == printed[..|b| + |w|][|b|..];
    }
    if w <= printed[|b|..] {
      assert printed[..|b| + |w|] == b + printed[|b|..][..|w|];
    }
  }

  lemma SpaceInFront(w: string, rest: string)
    requires AllSpace(w) && rest != "" && !IsSpace(rest[0])
    ensures w <= "\n\n" + rest <==> w in {"", "\n", "\n\n"}
  {
    hide IsSpace;
    var printed := "\n\n" + rest;
    assert printed[..0] == "" && printed[..1] == "\n" && printed[..2] == "\n\n";
    assert printed[2] == rest[0];
    assert |w| >= 3 ==> w[2] != printed[2];
    if w <= printed {
      assert w == printed[..|w|];
    }
    if w in {"", "\n", "\n\n"} {
      assert w == printed[..|w|];
    }
  }

  function FirstReturn(s: string): (i: nat)
    requires '\r' in s
    ensures i < |s| && s[i] == '\r' && '\r' !in s[..i]
  {
    if s[0] == '\r' then 0 else 1 + FirstReturn(s[1..])
  }

  /** A carriage return in the kept part is not written back. */
  lemma ReturnIsLost(kept: string, rest: string)
    requires '\r' in kept && rest != "" && !IsSpace(rest[0])
    ensures !(kept <= Rstrip(Universal(kept)) + "\n\n" + rest)
  {
    hide IsSpace, Rstrip, Universal;
    var i := FirstReturn(kept);
    var read := Universal(kept);
    ReadUpToReturn(kept, i);
    var b := Rstrip(read);
    var printed := b + "\n\n" + rest;
    ReturnIsSpace();
    if i < |b| + 2 {
      assert printed[i] == '\n' by {
        assert i < |b| ==> b[i] == read[i];
      }
    } else {
      assert printed[|b| + 2] == rest[0];
      assert kept[|b| + 2] == '\r' || kept[|b| + 2] == read[|b| + 2];
      assert IsSpace(kept[|b| + 2]) by {
        assert i > |b| + 2 ==> read[|b|..][2] == read[|b| + 2];
      }
    }
  }

  lemma ReturnIsSpace()
    ensures IsSpace('\r')
  {
  }

  lemma ReadUpToReturn(kept: string, i: nat)
    requires i < |kept| && kept[i] == '\r' && '\r' !in kept[..i]
    ensures |Universal(kept)| > i && Universal(kept)[..i] == kept[..i] && Universal(kept)[i] == '\n'
    ensures forall j :: 0 <= j < i ==> Universal(kept)[j] == kept[j]
  {
    var tail := kept[i..];
    assert kept == kept[..i] + tail;
    UniversalPrefix(kept[..i], tail);
    assert Universal(tail)[0] == '\n';
    assert forall j :: 0 <= j < i ==> kept[..i][j] == kept[j];
  }

  lemma BlockOfHandWritten(conf: Layout, text: string)
    requires ValidConf(conf)
    ensures InterfaceBlock(conf, text) == Rstrip(Universal(HandWritten(conf, text))) + "\n"
  {
    hide HandWritten, Universal, Rstrip;
    CutOfUniversal(conf, text);
  }

  /** What a sync writes, in terms of the hand-written part. */
  lemma SyncedText(conf: Layout, text: string, peers: seq<PeerRow>) returns (rest: string)
    requires ValidConf(conf)
    ensures Synced(conf, text, peers)
         == Rstrip(Universal(HandWritten(conf, text))) + "\n\n" + (conf.marker + "\n" + rest)
  {
    hide HandWritten, Universal, Rstrip, Stanzas;
    rest := Stanzas(peers);
    BlockOfHandWritten(conf, text);
    ReaderOutputIsClean(conf, text);
    var block := InterfaceBlock(conf, text);
    BlockRstrip(block, Rstrip(Universal(HandWritten(conf, text))));
    conf.PrintParts(Rstrip(block), rest);
  }

  lemma BlockRstrip(block: string, b: string)
    requires block == b + "\n" && Rstrip(block) + "\n" == block
    ensures Rstrip(block) == b
  {
    assert b + "\n" == Rstrip(block) + "\n";
    assert (b + "\n")[..|b|] == b && (Rstrip(block) + "\n")[..|Rstrip(block)|] == Rstrip(block);
  }

  /** A sync keeps the hand-written part of the file, byte for byte, exactly when that part holds no
      carriage return and ends, after its last visible character, in at most two newlines and
      nothing else. Whatever peers there are. */
  lemma KeptExactly(conf: Layout, text: string, peers: seq<PeerRow>)
    requires ValidConf(conf)
    ensures HandWritten(conf, text) <= Synced(conf, text, peers) <==> EndsPlainly(HandWritten(conf, text))
  {
    hide HandWritten, Universal, Rstrip, Synced, EndsPlainly, IsSpace;
    var kept := HandWritten(conf, text);
    var rest := SyncedText(conf, text, peers);
    var managed := conf.marker + "\n" + rest;
    MarkerShows(conf, managed, rest);
    if '\r' in kept {
      ReturnIsLost(kept, managed);
      ReturnIsNotPlain(kept);
    } else {
      NoReturnReadsAlike(kept);
      KeptWithoutReturn(kept, managed);
    }
  }

  lemma ReturnIsNotPlain(kept: string)
    requires '\r' in kept
    ensures !EndsPlainly(kept)
  {
  }

  lemma NoReturnReadsAlike(kept: string)
    requires '\r' !in kept
    ensures Universal(kept) == kept
  {
  }

  lemma MarkerShows(conf: Layout, managed: string, rest: string)
    requires ValidConf(conf) && managed == conf.marker + "\n" + rest
    ensures managed != "" && !IsSpace(managed[0])
  {
    assert managed[0] == conf.marker[0] == '#';
  }

  /** What a sync has written ends plainly above the marker, so every later sync keeps it. */
  lemma KeptFromThenOn(conf: Layout, text: string, peers: seq<PeerRow>, later: seq<PeerRow>)
    requires ValidConf(conf)
    ensures var written := Synced(conf, text, peers);
            && HandWritten(conf, written) == Rstrip(InterfaceBlock(conf, text)) + "\n\n"
            && HandWritten(conf, written) <= Synced(conf, written, later)
  {
    hide Universal, Rstrip, Synced, EndsPlainly, IsSpace, InterfaceBlock;
    var written := Synced(conf, text, peers);
    var rest := SyncedText(conf, text, peers);
    BlockOfHandWritten(conf, text);
    ReaderOutputIsClean(conf, text);
    var b := Rstrip(Universal(HandWritten(conf, text)));
    BlockRstrip(InterfaceBlock(conf, text), b);
    CleanBlock(conf, b);
    conf.CutOfPrint(b, rest);
    assert (b + "\n\n" + (conf.marker + "\n" + rest))[..|b| + 2] == b + "\n\n";
    PlainEnd(InterfaceBlock(conf, text), b);
    KeptExactly(conf, written, later);
  }

  lemma CleanBlock(conf: Layout, b: string)
    requires conf.Clean(b + "\n")
    ensures conf.Clean(b)
  {
    assert b <= b + "\n";
    FreePrefix(b + "\n", b, conf.marker);
    FreePrefix(b + "\n", b, conf.header);
    assert forall x :: x in b ==> x in b + "\n";
  }

  lemma PlainEnd(block: string, b: string)
    requires Rstrip(block) == b && '\r' !in block
    ensures EndsPlainly(b + "\n\n")
  {
    hide IsSpace, Rstrip;
    NewlinesAreSpace();
    RstripUnique(b, b);
    RstripAppend(b, "\n\n");
    assert (b + "\n\n")[|b|..] == "\n\n";
    assert forall x :: x in b ==> x in block;
  }

  lemma NewlinesAreSpace()
    ensures AllSpace("\n\n")
  {
  }

  // ----- two files that are not kept ------------------------------------------------

  /** Text with no `#`, and with no `[` but one that starts another section, is all hand-written. */
  lemma AllHandWritten(conf: Layout, text: string)
    requires ValidConf(conf) && '#' !in text
    requires forall i :: 0 <= i < |text| && text[i] == '[' ==> i + 1 < |text| && text[i + 1] != 'P'
    ensures HandWritten(conf, text) == text
  {
    CharOf(text, conf.marker, conf.Cut(text), 0);
    CharOf(text, PEER_HEADER, conf.Cut(text), 0);
    CharOf(text, PEER_HEADER, conf.Cut(text), 1);
    assert text[..|text|] == text;
  }

  lemma CharOf(s: string, p: string, i: nat, k: nat)
    requires k < |p|
    ensures OccursAt(s, p, i) ==> i + k < |s| && s[i + k] == p[k]
  {
    if OccursAt(s, p, i) {
      assert s[i..i + |p|][k] == s[i + k];
    }
  }

  /** A space at the end of the last hand-written line is lost. */
  lemma TrailingSpaceIsLost(conf: Layout, peers: seq<PeerRow>)
    requires ValidConf(conf)
    ensures var text := "[Interface] \n";
            HandWritten(conf, text) == text && !(text <= Synced(conf, text, peers))
  {
    var text := "[Interface] \n";
    AllHandWritten(conf, text);
    RstripUnique(text, text[..11]);
    assert text[11..] == " \n";
    KeptExactly(conf, text, peers);
  }

  /** So are the line ends of a file with CR LF. */
  lemma LineEndsAreLost(conf: Layout, peers: seq<PeerRow>)
    requires ValidConf(conf)
    ensures var text := "[Interface]\r\n";
            HandWritten(conf, text) == text && !(text <= Synced(conf, text, peers))
  {
    var text := "[Interface]\r\n";
    AllHandWritten(conf, text);
    assert text[11] == '\r';
    KeptExactly(conf, text, peers);
  }
}

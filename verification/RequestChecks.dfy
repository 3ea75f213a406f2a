/** The pure checks a request goes through: the provisioning secret, the naming rule that
    approves an identity, and the Authorization header. */
module RequestChecks {
  import opened Wrappers
  import opened Text

  // ----- provisioning secret --------------------------------------------------------

  type Hash = string -> string

  ghost predicate Injective(hash: Hash) {
    forall a, b :: hash(a) == hash(b) ==> a == b
  }

  datatype Slot = Current | Previous

  /** Compare with both slots; an empty slot never matches. */
  function VerifySecret(hash: Hash, raw: string, current: string, previous: string): Option<Slot> {
    var isCurrent := current != "" && hash(raw) == hash(current);
    var isPrevious := previous != "" && hash(raw) == hash(previous);
    if isCurrent then Some(Current) else if isPrevious then Some(Previous) else None
  }

  /** A secret passes exactly when it is the text of a slot in use. */
  lemma SecretPassesExactly(hash: Hash, raw: string, current: string, previous: string)
    requires Injective(hash)
    ensures VerifySecret(hash, raw, current, previous).Some? <==>
              raw != "" && (raw == current || raw == previous)
    ensures VerifySecret(hash, raw, current, previous) == Some(Current) <==> raw != "" && raw == current
  {
  }

  // ----- the naming rule ------------------------------------------------------------

  /** A line of the form "hAP <model> - <last>, <first>". */
  ghost predicate Named(line: string) {
    exists a, b, c :: Parts(line, a, b, c)
  }

  predicate Parts(line: string, a: string, b: string, c: string) {
    a != "" && b != "" && c != "" && '\n' !in line && line == "hAP " + a + " - " + b + ", " + c
  }

  /** The dollar sign also matches before one newline at the end. */
  function WithoutFinalNewline(s: string): string {
    if s != "" && s[|s| - 1] == '\n' then s[..|s| - 1] else s
  }

  /** Does the identity match the auto-approve pattern? Take the first dash, then the first comma
      after it, leaving at least one character before each. */
  predicate AutoApproved(identity: string) {
    var line := WithoutFinalNewline(identity);
    && '\n' !in line
    && "hAP " <= line
    && var rest := line[4..];
    && rest != ""
    && match FindFrom(rest, " - ", 1)
       case None => false
       case Some(i) =>
         var names := rest[i + 3..];
         && names != ""
         && match FindFrom(names, ", ", 1)
            case None => false
            case Some(j) => j + 2 < |names|
  }

  lemma LeftmostParts(line: string)
    requires AutoApproved(line) && WithoutFinalNewline(line) == line
    ensures Named(line)
  {
    var rest := line[4..];
    var i := FindFrom(rest, " - ", 1).value;
    var names := rest[i + 3..];
    var j := FindFrom(names, ", ", 1).value;
    var a, b, c := rest[..i], names[..j], names[j + 2..];
    CutAround(names, ", ", j);
    CutAround(rest, " - ", i);
    NamedFrom(line, rest, names, a, b, c);
  }

  lemma NamedFrom(line: string, rest: string, names: string, a: string, b: string, c: string)
    requires a != "" && b != "" && c != "" && '\n' !in line
    requires names == b + ", " + c && rest == a + " - " + names && "hAP " <= line && line[4..] == rest
    ensures Named(line)
  {
    assert line == "hAP " + rest;
    PartsConcat(a, b, c);
    assert Parts(line, a, b, c);
  }

  lemma PartsConcat(a: string, b: string, c: string)
    ensures "hAP " + (a + " - " + (b + ", " + c)) == "hAP " + a + " - " + b + ", " + c
    ensures a + " - " + (b + ", " + c) == (a + " - " + b) + ", " + c
  {
  }

  lemma PartsRest(line: string, a: string, b: string, c: string) returns (rest: string)
    requires Parts(line, a, b, c)
    ensures "hAP " <= line && line[4..] == rest && |rest| == |a| + |b| + |c| + 5
    ensures OccursAt(rest, " - ", |a|) && OccursAt(rest, ", ", |a| + 3 + |b|)
  {
    rest := a + " - " + (b + ", " + c);
    PartsConcat(a, b, c);
    assert line == "hAP " + rest;
    OccursBetween(a, " - ", b + ", " + c);
    OccursBetween(a + " - " + b, ", ", c);
  }

  lemma LeftmostExists(line: string, a: string, b: string, c: string)
    requires Parts(line, a, b, c)
    ensures AutoApproved(line)
  {
    var rest := PartsRest(line, a, b, c);
    LastIsNoBreak(line);
    var i := FindFrom(rest, " - ", 1).value;
    OccursInSuffix(rest, ", ", |a| + 3 + |b|, i + 3);
  }

  lemma LastIsNoBreak(line: string)
    requires '\n' !in line
    ensures WithoutFinalNewline(line) == line
  {
  }

  /** The rule approves exactly the identities of the documented form, with or without a final
      newline; for text without line breaks, exactly those of that form. */
  lemma ApprovedExactly(identity: string)
    ensures AutoApproved(identity) <==> Named(WithoutFinalNewline(identity))
    ensures '\n' !in identity ==> (AutoApproved(identity) <==> Named(identity))
  {
    var line := WithoutFinalNewline(identity);
    if AutoApproved(identity) {
      assert WithoutFinalNewline(line) == line;
      assert AutoApproved(line);
      LeftmostParts(line);
    }
    if Named(line) {
      var a, b, c :| Parts(line, a, b, c);
      LeftmostExists(line, a, b, c);
      assert WithoutFinalNewline(line) == line;
    }
  }

  /** The same, in terms of the form alone: a line of the form, or one with a newline after it. */
  ghost predicate NamedOrEnded(identity: string) {
    Named(identity) || exists line :: identity == line + "\n" && Named(line)
  }

  lemma ApprovedByForm(identity: string)
    ensures AutoApproved(identity) <==> NamedOrEnded(identity)
  {
    ApprovedExactly(identity);
    var line := WithoutFinalNewline(identity);
    if line != identity {
      assert identity == line + "\n";
    }
    forall l | identity == l + "\n" ensures line == l {
    }
    NamedIsOneLine(identity);
  }

  /** The rule agrees with the documented form exactly outside one case: the form with a newline
      after it. */
  lemma ApprovalDiffersExactly(identity: string)
    ensures (AutoApproved(identity) <==> Named(identity)) <==>
              !('\n' in identity && Named(WithoutFinalNewline(identity)))
  {
    hide AutoApproved, Named;
    ApprovedExactly(identity);
    NamedIsOneLine(identity);
    LineStays(identity);
  }

  lemma NamedIsOneLine(identity: string)
    ensures '\n' in identity ==> !Named(identity)
  {
  }

  lemma LineStays(identity: string)
    ensures '\n' !in identity ==> WithoutFinalNewline(identity) == identity
  {
  }

  /** One such identity. */
  lemma FinalNewlineIsApproved()
    ensures AutoApproved("hAP a - b, c\n") && !Named("hAP a - b, c\n")
  {
    var line := "hAP a - b, c";
    assert Parts(line, "a", "b", "c");
    assert WithoutFinalNewline(line + "\n") == line;
    assert line + "\n" == "hAP a - b, c\n";
    ApprovedExactly(line + "\n");
  }

  // ----- the Authorization header ---------------------------------------------------

  /** The characters before the first white space. */
  function Word(s: string): (w: string)
    ensures w <= s
    ensures forall i :: 0 <= i < |w| ==> !IsSpace(w[i])
    ensures |w| < |s| ==> IsSpace(s[|w|])
  {
    if s == "" || IsSpace(s[0]) then "" else [s[0]] + Word(s[1..])
  }

  function LowerChar(c: char): char {
    if 'A' <= c <= 'Z' then (c as int + 32) as char else c
  }

  function Lower(s: string): string {
    if s == "" then "" else [LowerChar(s[0])] + Lower(s[1..])
  }

  datatype AuthError = MissingHeader | MalformedHeader

  /** Split once on white space, check the scheme, strip the rest. */
  function ExtractBearer(authorization: Option<string>): Result<string, AuthError> {
    if authorization.None? || authorization.value == "" then Failure(MissingHeader)
    else
      var text := Lstrip(authorization.value);
      var scheme := Word(text);
      var token := Strip(text[|scheme|..]);
      if token == "" || Lower(scheme) != "bearer" then Failure(MalformedHeader)
      else Success(token)
  }

  predicate Bearer(header: string, lead: string, scheme: string, gap: string, token: string, tail: string) {
    && header == lead + scheme + gap + token + tail
    && AllSpace(lead) && AllSpace(gap) && AllSpace(tail) && gap != ""
    && |scheme| == 6 && (forall i :: 0 <= i < 6 ==> scheme[i] == "bearer"[i] || scheme[i] == "BEARER"[i])
    && token != "" && !IsSpace(token[0]) && !IsSpace(token[|token| - 1])
  }

  /** A text is the scheme exactly when each of its characters is, in either case. */
  lemma SchemeExactly(scheme: string)
    ensures Lower(scheme) == "bearer" <==>
              |scheme| == 6 && forall i :: 0 <= i < 6 ==> scheme[i] == "bearer"[i] || scheme[i] == "BEARER"[i]
  {
    LowerChars(scheme);
    if |scheme| == 6 {
      forall i | 0 <= i < 6
        ensures LowerChar(scheme[i]) == "bearer"[i] <==> scheme[i] == "bearer"[i] || scheme[i] == "BEARER"[i]
      {
      }
      if forall i :: 0 <= i < 6 ==> LowerChar(scheme[i]) == "bearer"[i] {
        assert Lower(scheme) == "bearer";
      }
    }
  }

  lemma {:induction false} LowerChars(s: string)
    ensures |Lower(s)| == |s| && forall i :: 0 <= i < |s| ==> Lower(s)[i] == LowerChar(s[i])
  {
    if s != "" {
      LowerChars(s[1..]);
    }
  }

  lemma SchemeIsAWord(scheme: string)
    requires |scheme| == 6 && forall i :: 0 <= i < 6 ==> scheme[i] == "bearer"[i] || scheme[i] == "BEARER"[i]
    ensures forall i :: 0 <= i < |scheme| ==> !IsSpace(scheme[i])
  {
  }

  lemma {:induction false} WordUnique(s: string, w: string)
    requires w <= s && (forall i :: 0 <= i < |w| ==> !IsSpace(w[i]))
    requires |w| < |s| ==> IsSpace(s[|w|])
    ensures Word(s) == w
  {
    if w != "" {
      assert s[0] == w[0];
      WordUnique(s[1..], w[1..]);
      assert w == [w[0]] + w[1..];
    }
  }

  /** The extracted token is what stands between the scheme and the end, outer white space apart;
      every header of that form yields its token, and no other header yields one. */
  lemma BearerSound(header: string, token: string) returns (lead: string, scheme: string, gap: string, tail: string)
    requires ExtractBearer(Some(header)) == Success(token)
    ensures Bearer(header, lead, scheme, gap, token, tail)
  {
    hide IsSpace, Lower, Strip, Lstrip, Word;
    var text := Lstrip(header);
    lead := header[..|header| - |text|];
    scheme := Word(text);
    SchemeExactly(scheme);
    var rest := text[|scheme|..];
    gap, tail := StripParts(rest);
    SpaceFirst(rest, gap, token, tail);
    Assemble(header, text, lead, scheme, gap, token, tail);
  }

  lemma SpaceFirst(rest: string, gap: string, token: string, tail: string)
    requires rest == gap + token + tail && rest != "" && IsSpace(rest[0])
    requires token != "" && !IsSpace(token[0])
    ensures gap != ""
  {
  }

  lemma Assemble(header: string, text: string, lead: string, scheme: string, gap: string, token: string, tail: string)
    requires |text| <= |header| && header[|header| - |text|..] == text && lead == header[..|header| - |text|]
    requires scheme <= text && text[|scheme|..] == gap + token + tail
    ensures header == lead + scheme + gap + token + tail
  {
    assert header == lead + text;
    assert text == scheme + (gap + token + tail);
    BearerParts(lead, scheme, gap, token, tail);
  }

  lemma BearerParts(lead: string, scheme: string, gap: string, token: string, tail: string)
    ensures lead + (scheme + (gap + token + tail)) == lead + scheme + gap + token + tail
  {
  }

  lemma BearerComplete(header: string, lead: string, scheme: string, gap: string, token: string, tail: string)
    requires Bearer(header, lead, scheme, gap, token, tail)
    ensures ExtractBearer(Some(header)) == Success(token)
  {
    var rest := gap + token + tail;
    var text := scheme + rest;
    SchemeExactly(scheme);
    SchemeIsAWord(scheme);
    BearerParts(lead, scheme, gap, token, tail);
    assert header == lead + text;
    assert scheme != "" && text[0] == scheme[0];
    assert header[..|lead|] == lead && header[|lead|..] == text;
    LstripUnique(header, text);
    assert text[|scheme|] == gap[0];
    WordUnique(text, scheme);
    assert text[|scheme|..] == rest;
    StripUnique(gap, token, tail);
  }

  /** The header every client sends: the scheme, one space and the token. */
  lemma BearerTokenIsRead(token: string)
    requires token != "" && Strip(token) == token
    ensures ExtractBearer(Some("Bearer " + token)) == Success(token)
  {
    StripIsPlain(token);
    assert "Bearer " + token == "" + "Bearer" + " " + token + "";
    BearerComplete("Bearer " + token, "", "Bearer", " ", token, "");
  }
}

/** The string operations the control plane takes from Python: strip, find, split, join,
    universal newlines and decimal numerals. */
module Text {
  import opened Wrappers

  // ----- whitespace -----------------------------------------------------------------

  /** `str.isspace` of one character. */
  predicate IsSpace(c: char) {
    var n := c as int;
    || 9 <= n <= 13
    || 28 <= n <= 32
    || n == 0x85
    || n == 0xA0
    || n == 0x1680
    || 0x2000 <= n <= 0x200A
    || n == 0x2028
    || n == 0x2029
    || n == 0x202F
    || n == 0x205F
    || n == 0x3000
  }

  /** They are these 29 characters. */
  lemma SpacesAre(c: char)
    ensures IsSpace(c) <==>
              || c in {'\t', '\n', '\U{0B}', '\U{0C}', '\r', '\U{1C}', '\U{1D}', '\U{1E}', '\U{1F}', ' '}
              || c in {'\U{85}', '\U{A0}', '\U{1680}', '\U{2000}', '\U{2001}', '\U{2002}', '\U{2003}', '\U{2004}'}
              || c in {'\U{2005}', '\U{2006}', '\U{2007}', '\U{2008}', '\U{2009}', '\U{200A}', '\U{2028}'}
              || c in {'\U{2029}', '\U{202F}', '\U{205F}', '\U{3000}'}
  {
  }

  predicate AllSpace(s: string) {
    forall i :: 0 <= i < |s| ==> IsSpace(s[i])
  }

  /** No white space at the right end. */
  predicate Trimmed(s: string) {
    s == "" || !IsSpace(s[|s| - 1])
  }

  /** `s.rstrip()` */
  function Rstrip(s: string): (r: string)
    ensures r <= s
    ensures Trimmed(r)
    ensures AllSpace(s[|r|..])
  {
    if s == "" || !IsSpace(s[|s| - 1]) then s else Rstrip(s[..|s| - 1])
  }

  /** `s.lstrip()` */
  function Lstrip(s: string): (r: string)
    ensures |r| <= |s| && r == s[|s| - |r|..]
    ensures r == "" || !IsSpace(r[0])
    ensures AllSpace(s[..|s| - |r|])
  {
    if s == "" || !IsSpace(s[0]) then s
    else
      var r := Lstrip(s[1..]);
      LstripStep(s, r);
      r
  }

  lemma LstripStep(s: string, r: string)
    requires s != "" && IsSpace(s[0]) && |r| < |s|
    requires r == s[1..][|s| - 1 - |r|..] && AllSpace(s[1..][..|s| - 1 - |r|])
    ensures r == s[|s| - |r|..] && AllSpace(s[..|s| - |r|])
  {
    hide IsSpace;
    var n := |s| - |r|;
    assert s[..n] == [s[0]] + s[1..][..n - 1];
  }

  /** `s.strip()` */
  function Strip(s: string): string {
    Rstrip(Lstrip(s))
  }

  /** rstrip is the only way to cut a string into a trimmed part and white space. */
  lemma {:induction false} RstripUnique(s: string, r: string)
    requires r <= s && Trimmed(r) && AllSpace(s[|r|..])
    ensures Rstrip(s) == r
  {
    hide IsSpace;
    if |r| < |s| {
      assert s[|s| - 1] == s[|r|..][|s| - 1 - |r|];
      assert s[..|s| - 1][|r|..] == s[|r|..][..|s| - 1 - |r|];
      RstripUnique(s[..|s| - 1], r);
    }
  }

  lemma RstripAppend(s: string, w: string)
    requires AllSpace(w)
    ensures Rstrip(s + w) == Rstrip(s)
  {
    hide IsSpace;
    var r := Rstrip(s);
    assert (s + w)[|r|..] == s[|r|..] + w;
    assert r <= s + w;
    RstripUnique(s + w, r);
  }

  lemma {:induction false} LstripUnique(s: string, r: string)
    requires |r| <= |s| && r == s[|s| - |r|..]
    requires r == "" || !IsSpace(r[0])
    requires AllSpace(s[..|s| - |r|])
    ensures Lstrip(s) == r
  {
    hide IsSpace;
    if |r| < |s| {
      var n := |s| - |r|;
      assert s[0] == s[..n][0];
      assert s[1..][..n - 1] == s[..n][1..];
      assert s[1..][n - 1..] == r;
      LstripUnique(s[1..], r);
    } else {
      assert s == r;
    }
  }

  /** White space around a core that neither starts nor ends with it is what strip removes. */
  lemma StripUnique(before: string, core: string, after: string)
    requires AllSpace(before) && AllSpace(after)
    requires Trimmed(core) && (core == "" || !IsSpace(core[0]))
    ensures Strip(before + core + after) == core
  {
    hide IsSpace, Rstrip, Lstrip;
    var s := before + core + after;
    if core == "" {
      assert AllSpace(s);
      LstripUnique(s, "");
    } else {
      assert s[|before|..] == core + after;
      assert s[..|before|] == before;
      LstripUnique(s, core + after);
      RstripUnique(core + after, core);
    }
  }

  /** What strip removed. */
  lemma StripParts(s: string) returns (before: string, after: string)
    ensures s == before + Strip(s) + after && AllSpace(before) && AllSpace(after)
    ensures Strip(s) != "" ==> !IsSpace(Strip(s)[0]) && !IsSpace(Strip(s)[|Strip(s)| - 1])
  {
    hide IsSpace, Rstrip, Lstrip;
    var l := Lstrip(s);
    var r := Rstrip(l);
    before, after := s[..|s| - |l|], l[|r|..];
    ThreeParts(s, l, r, before, after);
    if r != "" {
      assert r[0] == l[0];
    }
  }

  lemma ThreeParts(s: string, l: string, r: string, before: string, after: string)
    requires |l| <= |s| && s[|s| - |l|..] == l && before == s[..|s| - |l|]
    requires r <= l && after == l[|r|..]
    ensures s == before + r + after
  {
    assert l == r + after;
    assert s == before + l;
  }

  /** A string that strip leaves alone. */
  predicate Plain(s: string) {
    s == "" || (!IsSpace(s[0]) && !IsSpace(s[|s| - 1]))
  }

  lemma StripIsPlain(s: string)
    ensures Plain(Strip(s))
    ensures forall c :: c in Strip(s) ==> c in s
    ensures Plain(s) ==> Strip(s) == s
  {
    hide IsSpace, Rstrip, Lstrip;
    var l := Lstrip(s);
    var r := Rstrip(l);
    if r != "" {
      assert r[0] == l[0];
    }
    if Plain(s) {
      LstripUnique(s, s);
      RstripUnique(s, s);
    }
  }

  // ----- searching ------------------------------------------------------------------

  predicate OccursAt(s: string, pattern: string, i: nat) {
    i + |pattern| <= |s| && s[i..i + |pattern|] == pattern
  }

  predicate Free(s: string, pattern: string) {
    forall i: nat | i <= |s| :: !OccursAt(s, pattern, i)
  }

  function FindFrom(s: string, pattern: string, i: nat): (r: Option<nat>)
    requires i <= |s|
    ensures r.Some? ==> i <= r.value <= |s| && OccursAt(s, pattern, r.value)
    ensures forall j: nat | i <= j <= |s| && (r.Some? ==> j < r.value) :: !OccursAt(s, pattern, j)
    decreases |s| - i
  {
    if OccursAt(s, pattern, i) then Some(i)
    else if i < |s| then FindFrom(s, pattern, i + 1)
    else None
  }

  /** `s.find(pattern)`, with None for -1. */
  function Find(s: string, pattern: string): (r: Option<nat>)
    ensures r.Some? ==> r.value <= |s| && OccursAt(s, pattern, r.value)
    ensures forall j: nat | j <= |s| && (r.Some? ==> j < r.value) :: !OccursAt(s, pattern, j)
    ensures r.None? <==> Free(s, pattern)
  {
    FindFrom(s, pattern, 0)
  }

  /** A pattern without the character `c` cannot straddle a `c`. */
  lemma NoStraddle(x: string, c: char, y: string, pattern: string, i: nat)
    requires c !in pattern && pattern != ""
    requires OccursAt(x + [c] + y, pattern, i)
    ensures OccursAt(x, pattern, i) || (i > |x| && OccursAt(y, pattern, i - |x| - 1))
  {
    var s := x + [c] + y;
    forall j | i <= j < i + |pattern| ensures s[j] != c {
      assert s[i..i + |pattern|][j - i] == pattern[j - i];
    }
    assert s[|x|] == c;
    if i + |pattern| <= |x| {
      assert s[i..i + |pattern|] == x[i..i + |pattern|];
    } else {
      assert s[i..i + |pattern|] == y[i - |x| - 1..i - |x| - 1 + |pattern|];
    }
  }

  lemma CutAround(s: string, pattern: string, i: nat)
    requires OccursAt(s, pattern, i)
    ensures s == s[..i] + pattern + s[i + |pattern|..]
  {
  }

  lemma OccursBetween(x: string, pattern: string, y: string)
    ensures OccursAt(x + pattern + y, pattern, |x|)
  {
  }

  lemma OccursInSuffix(s: string, pattern: string, i: nat, n: nat)
    requires OccursAt(s, pattern, i) && n <= i
    ensures OccursAt(s[n..], pattern, i - n)
  {
    assert s[n..][i - n..i - n + |pattern|] == s[i..i + |pattern|];
  }

  lemma FreePrefix(s: string, p: string, pattern: string)
    requires p <= s && Free(s, pattern)
    ensures Free(p, pattern)
  {
    forall i: nat | i <= |p| ensures !OccursAt(p, pattern, i) {
      if OccursAt(p, pattern, i) {
        assert p[i..i + |pattern|] == s[i..i + |pattern|];
        assert OccursAt(s, pattern, i);
      }
    }
  }

  // ----- split and join -------------------------------------------------------------

  /** The first piece of `s.split(c, 1)`. */
  function Before(s: string, c: char): (r: string)
    ensures c !in r && r <= s
    ensures |r| < |s| ==> s[|r|] == c
  {
    if s == "" || s[0] == c then "" else [s[0]] + Before(s[1..], c)
  }

  lemma {:induction false} BeforeUnique(s: string, c: char, r: string)
    requires c !in r && r <= s
    requires |r| < |s| ==> s[|r|] == c
    ensures Before(s, c) == r
  {
    if r != "" {
      assert r[0] in r && s[0] == r[0];
      assert c !in r[1..];
      BeforeUnique(s[1..], c, r[1..]);
      assert r == [r[0]] + r[1..];
    }
  }

  /** `s.split(c)` for a one-character separator. */
  function Split(s: string, c: char): (parts: seq<string>)
    ensures |parts| >= 1
    ensures forall p :: p in parts ==> c !in p
    decreases |s|
  {
    var first := Before(s, c);
    if |first| == |s| then [s] else [first] + Split(s[|first| + 1..], c)
  }

  /** `c.join(parts)` */
  function Join(parts: seq<string>, c: char): string {
    if |parts| == 0 then ""
    else if |parts| == 1 then parts[0]
    else parts[0] + [c] + Join(parts[1..], c)
  }

  lemma SplitNext(s: string, c: char)
    ensures var first := Before(s, c);
            Split(s, c) == if |first| == |s| then [s] else [first] + Split(s[|first| + 1..], c)
  {
  }

  lemma {:induction false} JoinSplit(s: string, c: char)
    ensures Join(Split(s, c), c) == s
    decreases |s|
  {
    hide Split, Before;
    var first := Before(s, c);
    SplitNext(s, c);
    if |first| < |s| {
      JoinSplit(s[|first| + 1..], c);
      JoinFirst(first, Split(s[|first| + 1..], c), c);
      assert s == first + [c] + s[|first| + 1..];
    }
  }

  lemma JoinFirst(first: string, rest: seq<string>, c: char)
    requires |rest| >= 1
    ensures Join([first] + rest, c) == first + [c] + Join(rest, c)
  {
    assert ([first] + rest)[1..] == rest;
  }

  lemma {:induction false} SplitConcat(x: string, c: char, y: string)
    ensures Split(x + [c] + y, c) == Split(x, c) + Split(y, c)
    decreases |x|
  {
    var s := x + [c] + y;
    var first := Before(x, c);
    BeforeUnique(s, c, first);
    if |first| == |x| {
      assert first == x && |x| < |s|;
      assert s[|x| + 1..] == y;
      assert Split(s, c) == [x] + Split(y, c);
    } else {
      assert s[|first| + 1..] == x[|first| + 1..] + [c] + y;
      SplitConcat(x[|first| + 1..], c, y);
    }
  }

  lemma SplitWhole(s: string, c: char)
    requires c !in s
    ensures Split(s, c) == [s]
  {
    BeforeUnique(s, c, s);
  }

  lemma {:induction false} SplitJoin(parts: seq<string>, c: char)
    requires |parts| >= 1
    requires forall p :: p in parts ==> c !in p
    ensures Split(Join(parts, c), c) == parts
  {
    SplitWhole(parts[0], c);
    if |parts| > 1 {
      SplitConcat(parts[0], c, Join(parts[1..], c));
      SplitJoin(parts[1..], c);
    }
  }

  // ----- universal newlines ---------------------------------------------------------

  /** What text-mode reading does to line ends: CR LF and a lone CR both become LF. */
  function Universal(s: string): (r: string)
    ensures '\r' !in r
    ensures '\r' !in s ==> r == s
  {
    if s == "" then ""
    else if s[0] == '\r' then
      "\n" + Universal(if |s| > 1 && s[1] == '\n' then s[2..] else s[1..])
    else
      [s[0]] + Universal(s[1..])
  }

  lemma {:induction false} UniversalPrefix(x: string, y: string)
    requires '\r' !in x
    ensures Universal(x + y) == x + Universal(y)
  {
    if x == "" {
      assert x + y == y;
    } else {
      UniversalPrefix(x[1..], y);
      UniversalFirst(x, y);
    }
  }

  lemma UniversalFirst(x: string, y: string)
    requires x != "" && x[0] != '\r'
    ensures Universal(x + y) == [x[0]] + Universal(x[1..] + y)
    ensures x + Universal(y) == [x[0]] + (x[1..] + Universal(y))
  {
    assert (x + y)[1..] == x[1..] + y;
  }

  /** Reading a text in two pieces, unless the cut splits a CR LF. */
  lemma {:induction false} UniversalConcat(x: string, y: string)
    requires y == "" || y[0] != '\n'
    ensures Universal(x + y) == Universal(x) + Universal(y)
    decreases |x|
  {
    if x == "" {
      assert x + y == y;
    } else {
      hide Universal, LineEnd;
      var n := LineEnd(x);
      UniversalConcat(x[n..], y);
      LineEndOf(x, y);
      DropConcat(x, y, n);
      var c := if x[0] == '\r' then '\n' else x[0];
      assert Universal(x + y) == [c] + (Universal(x[n..]) + Universal(y));
      PrependConcat(c, Universal(x[n..]), Universal(y));
    }
  }

  lemma DropConcat(x: string, y: string, n: nat)
    requires n <= |x|
    ensures (x + y)[n..] == x[n..] + y
  {
  }

  /** How many characters make up the first character of the text as read. */
  function LineEnd(x: string): (n: nat)
    requires x != ""
    ensures 1 <= n <= |x|
    ensures Universal(x) == [if x[0] == '\r' then '\n' else x[0]] + Universal(x[n..])
  {
    if x[0] == '\r' && |x| > 1 && x[1] == '\n' then 2 else 1
  }

  lemma LineEndOf(x: string, y: string)
    requires x != "" && (y == "" || y[0] != '\n')
    ensures LineEnd(x + y) == LineEnd(x) && (x + y)[0] == x[0]
  {
    assert |x| == 1 && y != "" ==> (x + y)[1] == y[0];
  }

  lemma PrependConcat(c: char, x: string, y: string)
    ensures [c] + (x + y) == [c] + x + y
  {
  }

  /** A text without line breaks at the start of what is read is at the start of the text. */
  lemma {:induction false} UniversalStart(s: string, p: string)
    requires p <= Universal(s) && '\n' !in p && '\r' !in p
    ensures p <= s
  {
    if p != "" {
      assert p[0] == Universal(s)[0];
      assert s != "" && s[0] == p[0];
      assert p[1..] <= Universal(s)[1..] == Universal(s[1..]);
      UniversalStart(s[1..], p[1..]);
      assert p == [p[0]] + p[1..] && s == [s[0]] + s[1..];
    }
  }

  lemma ReadAtStart(x: string, y: string, p: string)
    requires '\n' !in p && '\r' !in p && (y == "" || y[0] != '\n')
    requires OccursAt(Universal(x) + Universal(y), p, 0)
    ensures OccursAt(x + y, p, 0)
  {
    hide Universal;
    UniversalConcat(x, y);
    UniversalStart(x + y, p);
  }

  /** A pattern without line breaks that is read before a cut occurs in the text before it. */
  lemma {:induction false} ReadBefore(x: string, y: string, p: string, i: nat) returns (j: nat)
    requires p != "" && '\n' !in p && '\r' !in p && (y == "" || y[0] != '\n')
    requires OccursAt(Universal(x) + Universal(y), p, i) && i < |Universal(x)|
    ensures j < |x| && OccursAt(x + y, p, j)
    decreases |x|
  {
    if i == 0 {
      ReadAtStart(x, y, p);
      j := 0;
    } else {
      hide Universal, LineEnd, OccursAt;
      var n := LineEnd(x);
      OccursInSuffix(Universal(x) + Universal(y), p, i, 1);
      DropConcat(Universal(x), Universal(y), 1);
      assert Universal(x)[1..] == Universal(x[n..]);
      j := ReadBefore(x[n..], y, p, i - 1);
      OccursAfterDrop(x, y, n, p, j);
      j := n + j;
    }
  }

  lemma OccursAfterDrop(x: string, y: string, n: nat, p: string, j: nat)
    requires n <= |x| && OccursAt(x[n..] + y, p, j)
    ensures OccursAt(x + y, p, n + j)
  {
    assert (x + y)[n + j..n + j + |p|] == (x[n..] + y)[j..j + |p|];
  }

  // ----- decimal numerals -----------------------------------------------------------

  predicate IsDigit(c: char) { '0' <= c <= '9' }

  predicate AllDigits(s: string) {
    forall i :: 0 <= i < |s| ==> IsDigit(s[i])
  }

  function DigitChar(d: nat): char
    requires d < 10
  {
    ('0' as int + d) as char
  }

  /** `str(n)` of a natural number. */
  function Decimal(n: nat): (s: string)
    ensures |s| >= 1 && AllDigits(s)
    ensures n > 0 ==> s[0] != '0'
    ensures n < 10 ==> |s| == 1
  {
    if n < 10 then [DigitChar(n)] else Decimal(n / 10) + [DigitChar(n % 10)]
  }

  /** `int(s)` of a string of digits. */
  function Numeral(s: string): nat
    requires AllDigits(s)
  {
    if s == "" then 0
    else 10 * Numeral(s[..|s| - 1]) + (s[|s| - 1] as int - '0' as int)
  }

  lemma {:induction false} NumeralOfDecimal(n: nat)
    ensures Numeral(Decimal(n)) == n
  {
    if n < 10 {
      assert Decimal(n)[..0] == "";
    } else {
      NumeralOfDecimal(n / 10);
      var s := Decimal(n);
      assert s[..|s| - 1] == Decimal(n / 10);
    }
  }

  /** The decimal numeral of a value is the only one without a leading zero. */
  lemma {:induction false} DecimalOfNumeral(s: string)
    requires |s| >= 1 && AllDigits(s)
    requires |s| == 1 || s[0] != '0'
    ensures Decimal(Numeral(s)) == s
    ensures |s| > 1 ==> Numeral(s) >= 10
  {
    var init := s[..|s| - 1];
    var d := s[|s| - 1] as int - '0' as int;
    if |s| == 1 {
      assert init == "";
    } else {
      DecimalOfNumeral(init);
      assert Numeral(init) > 0 by {
        if |init| == 1 {
          assert init[..0] == "";
        }
      }
      assert Numeral(s) == 10 * Numeral(init) + d;
      assert s == init + [s[|s| - 1]];
    }
  }
}

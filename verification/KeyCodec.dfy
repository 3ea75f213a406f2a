/** The check of a WireGuard public key: strict base64 that decodes to 32 bytes and re-encodes
    to itself (sections 3.5 and 4 of RFC 4648). */
module KeyCodec {
  import opened Wrappers

  type Byte = b: nat | b < 256
  type Sextet = v: nat | v < 64

  // ----- the alphabet ---------------------------------------------------------------

  function CharOf(v: Sextet): char {
    if v < 26 then ('A' as int + v) as char
    else if v < 52 then ('a' as int + (v - 26)) as char
    else if v < 62 then ('0' as int + (v - 52)) as char
    else if v == 62 then '+' else '/'
  }

  function ValueOf(c: char): Option<Sextet> {
    if 'A' <= c <= 'Z' then Some(c as int - 'A' as int)
    else if 'a' <= c <= 'z' then Some(c as int - 'a' as int + 26)
    else if '0' <= c <= '9' then Some(c as int - '0' as int + 52)
    else if c == '+' then Some(62)
    else if c == '/' then Some(63)
    else None
  }

  lemma ValueOfChar(v: Sextet)
    ensures ValueOf(CharOf(v)) == Some(v) && CharOf(v) != '='
  {
  }

  lemma CharOfValue(c: char)
    requires ValueOf(c).Some?
    ensures CharOf(ValueOf(c).value) == c && c != '='
  {
  }

  /** Table 1 of RFC 4648. */
  lemma Alphabet(v: Sextet)
    ensures v < 26 ==> CharOf(v) == "ABCDEFGHIJKLMNOPQRSTUVWXYZ"[v]
    ensures 26 <= v < 52 ==> CharOf(v) == "abcdefghijklmnopqrstuvwxyz"[v - 26]
    ensures 52 <= v ==> CharOf(v) == "0123456789+/"[v - 52]
  {
  }

  // ----- groups of three bytes and four sextets -------------------------------------

  function ToSextets(a: Byte, b: Byte, c: Byte): (Sextet, Sextet, Sextet, Sextet) {
    (a / 4, a % 4 * 16 + b / 16, b % 16 * 4 + c / 64, c % 64)
  }

  function ToBytes(w: Sextet, x: Sextet, y: Sextet, z: Sextet): (Byte, Byte, Byte) {
    (w * 4 + x / 16, x % 16 * 16 + y / 4, y % 4 * 64 + z)
  }

  lemma GroupRoundTrip(a: Byte, b: Byte, c: Byte)
    ensures var (w, x, y, z) := ToSextets(a, b, c); ToBytes(w, x, y, z) == (a, b, c)
  {
    assert (a % 4 * 16 + b / 16) / 16 == a % 4 && (a % 4 * 16 + b / 16) % 16 == b / 16;
    assert (b % 16 * 4 + c / 64) / 4 == b % 16 && (b % 16 * 4 + c / 64) % 4 == c / 64;
  }

  lemma SextetRoundTrip(w: Sextet, x: Sextet, y: Sextet, z: Sextet)
    ensures var (a, b, c) := ToBytes(w, x, y, z); ToSextets(a, b, c) == (w, x, y, z)
  {
    assert (w * 4 + x / 16) / 4 == w && (w * 4 + x / 16) % 4 == x / 16;
    assert (x % 16 * 16 + y / 4) / 16 == x % 16 && (x % 16 * 16 + y / 4) % 16 == y / 4;
    assert (y % 4 * 64 + z) / 64 == y % 4 && (y % 4 * 64 + z) % 64 == z;
  }

  // ----- encoder and decoder --------------------------------------------------------

  /** The text of one to three bytes. */
  function QuadText(group: seq<Byte>): (q: string)
    requires 1 <= |group| <= 3
    ensures |q| == 4
  {
    var b := if |group| > 1 then group[1] else 0;
    var c := if |group| > 2 then group[2] else 0;
    var (w, x, y, z) := ToSextets(group[0], b, c);
    [CharOf(w), CharOf(x), if |group| > 1 then CharOf(y) else '=', if |group| > 2 then CharOf(z) else '=']
  }

  /** Section 4 of RFC 4648. */
  function Encode(bytes: seq<Byte>): string
    decreases |bytes|
  {
    if bytes == [] then ""
    else if |bytes| <= 3 then QuadText(bytes)
    else QuadText(bytes[..3]) + Encode(bytes[3..])
  }

  /** One quad: three bytes, or fewer when it is padded. Bits that the padding leaves over are
      dropped without a check. */
  function QuadBytes(q: string): Option<seq<Byte>>
    requires |q| == 4
  {
    match (ValueOf(q[0]), ValueOf(q[1]), ValueOf(q[2]), ValueOf(q[3]))
    case (Some(w), Some(x), Some(y), Some(z)) =>
      var (a, b, c) := ToBytes(w, x, y, z); Some([a, b, c])
    case (Some(w), Some(x), Some(y), None) =>
      var (a, b, _) := ToBytes(w, x, y, 0);
      if q[3] == '=' then Some([a, b]) else None
    case (Some(w), Some(x), None, None) =>
      var (a, _, _) := ToBytes(w, x, 0, 0);
      if q[2] == '=' && q[3] == '=' then Some([a]) else None
    case _ => None
  }

  /** Strict decoding: whole quads, the alphabet only, padding only at the very end. */
  function Decode(s: string): Option<seq<Byte>>
    decreases |s|
  {
    if s == "" then Some([])
    else if |s| < 4 then None
    else
      match QuadBytes(s[..4])
      case None => None
      case Some(group) =>
        if |s| == 4 then Some(group)
        else if |group| < 3 then None
        else
          match Decode(s[4..])
          case None => None
          case Some(rest) => Some(group + rest)
  }

  lemma PaddedSextets(a: Byte, b: Byte)
    ensures ToSextets(a, b, 0).3 == 0 && ToSextets(a, 0, 0).2 == 0
  {
  }

  lemma EqualsIsNoValue()
    ensures ValueOf('=') == None
  {
  }

  /** One to three bytes survive the trip through a quad. */
  lemma QuadRoundTrip(group: seq<Byte>)
    requires 1 <= |group| <= 3
    ensures QuadBytes(QuadText(group)) == Some(group)
  {
    hide ToSextets, ToBytes, CharOf, ValueOf;
    EqualsIsNoValue();
    var b := if |group| > 1 then group[1] else 0;
    var c := if |group| > 2 then group[2] else 0;
    var (w, x, y, z) := ToSextets(group[0], b, c);
    GroupRoundTrip(group[0], b, c);
    ValueOfChar(w);
    ValueOfChar(x);
    ValueOfChar(y);
    ValueOfChar(z);
    PaddedSextets(group[0], b);
    if |group| == 1 {
      assert group == [group[0]];
    } else if |group| == 2 {
      assert group == [group[0], group[1]];
    } else {
      assert group == [group[0], group[1], group[2]];
    }
  }

  lemma DecodeStep(s: string, group: seq<Byte>, rest: seq<Byte>)
    requires |s| > 4 && QuadBytes(s[..4]) == Some(group) && |group| == 3 && Decode(s[4..]) == Some(rest)
    ensures Decode(s) == Some(group + rest)
  {
  }

  lemma DecodeLast(s: string, group: seq<Byte>)
    requires |s| == 4 && QuadBytes(s) == Some(group)
    ensures Decode(s) == Some(group)
  {
    assert s[..4] == s;
  }

  lemma EncodeStep(bytes: seq<Byte>)
    requires |bytes| > 3
    ensures |Encode(bytes)| > 4
    ensures Encode(bytes)[..4] == QuadText(bytes[..3]) && Encode(bytes)[4..] == Encode(bytes[3..])
  {
  }

  lemma DecodeSmall(bytes: seq<Byte>)
    requires 0 < |bytes| <= 3
    ensures Decode(Encode(bytes)) == Some(bytes)
  {
    QuadRoundTrip(bytes);
    DecodeLast(QuadText(bytes), bytes);
  }

  lemma DecodeLarge(s: string, front: seq<Byte>, rest: seq<Byte>)
    requires |s| > 4 && |front| == 3 && s[..4] == QuadText(front)
    requires Decode(s[4..]) == Some(rest)
    ensures Decode(s) == Some(front + rest)
  {
    QuadRoundTrip(front);
    DecodeStep(s, front, rest);
  }

  /** Decoding undoes encoding, for byte strings of every length. */
  lemma {:induction false} DecodeOfEncode(bytes: seq<Byte>)
    ensures Decode(Encode(bytes)) == Some(bytes)
    decreases |bytes|
  {
    if 0 < |bytes| <= 3 {
      DecodeSmall(bytes);
    } else if |bytes| > 3 {
      DecodeOfEncode(bytes[3..]);
      EncodeStep(bytes);
      DecodeLarge(Encode(bytes), bytes[..3], bytes[3..]);
      assert bytes == bytes[..3] + bytes[3..];
    }
  }

  lemma EncodeInjective(a: seq<Byte>, b: seq<Byte>)
    requires Encode(a) == Encode(b)
    ensures a == b
  {
    DecodeOfEncode(a);
    DecodeOfEncode(b);
  }

  /** Test vectors of section 10 of RFC 4648. */
  lemma OneByteVector()
    ensures Encode([0x66]) == "Zg=="
  {
    hide ToSextets;
    OneByteSextets();
  }

  lemma OneByteSextets()
    ensures ToSextets(0x66, 0, 0) == (25, 32, 0, 0)
  {
  }

  lemma TwoBytesVector()
    ensures Encode([0x66, 0x6F]) == "Zm8="
  {
    assert ToSextets(0x66, 0x6F, 0) == (25, 38, 60, 0);
  }

  lemma ThreeBytesVector()
    ensures Encode([0x66, 0x6F, 0x6F]) == "Zm9v"
  {
    assert ToSextets(0x66, 0x6F, 0x6F) == (25, 38, 61, 47);
  }

  lemma SecondQuadVector()
    ensures Encode([0x62, 0x61, 0x72]) == "YmFy"
  {
    assert ToSextets(0x62, 0x61, 0x72) == (24, 38, 5, 50);
  }

  lemma SixBytesVector(bytes: seq<Byte>)
    requires bytes == [0x66, 0x6F, 0x6F] + [0x62, 0x61, 0x72]
    ensures Encode(bytes) == "Zm9vYmFy"
  {
    hide QuadText;
    assert bytes[..3] == [0x66, 0x6F, 0x6F] && bytes[3..] == [0x62, 0x61, 0x72];
    ThreeBytesVector();
    SecondQuadVector();
    EncodeStep(bytes);
    assert Encode(bytes[..3]) == QuadText(bytes[..3]);
    JoinAt4(Encode(bytes), "Zm9vYmFy");
  }

  // ----- the validator --------------------------------------------------------------

  datatype KeyError = InvalidBase64 | WrongLength(length: nat) | NonCanonical

  /** `AutoEnrollRequest._validate_wg_pubkey`; the schema has already checked that the string is
      44 characters long. */
  function ValidatePublicKey(v: string): Result<string, KeyError> {
    match Decode(v)
    case None => Failure(InvalidBase64)
    case Some(decoded) =>
      if |decoded| != 32 then Failure(WrongLength(|decoded|))
      else if Encode(decoded) != v then Failure(NonCanonical)
      else Success(v)
  }

  // ----- what it accepts ------------------------------------------------------------

  /** Quads of alphabet characters, the last one ending in a single `=` after a character whose
      value is divisible by four. */
  predicate CanonicalShape(s: string) {
    && |s| >= 4 && |s| % 4 == 0
    && (forall i :: 0 <= i < |s| - 1 ==> ValueOf(s[i]).Some?)
    && s[|s| - 1] == '='
    && ValueOf(s[|s| - 2]).value % 4 == 0
  }

  lemma FullQuad(q: string)
    requires |q| == 4 && forall i :: 0 <= i < 4 ==> ValueOf(q[i]).Some?
    ensures QuadBytes(q).Some? && |QuadBytes(q).value| == 3
    ensures QuadText(QuadBytes(q).value) == q
  {
    CharOfValue(q[0]);
    CharOfValue(q[1]);
    CharOfValue(q[2]);
    CharOfValue(q[3]);
    SextetRoundTrip(ValueOf(q[0]).value, ValueOf(q[1]).value, ValueOf(q[2]).value, ValueOf(q[3]).value);
  }

  lemma PaddedQuad(q: string)
    requires |q| == 4 && CanonicalShape(q)
    ensures QuadBytes(q).Some? && |QuadBytes(q).value| == 2
    ensures QuadText(QuadBytes(q).value) == q
  {
    CharOfValue(q[0]);
    CharOfValue(q[1]);
    CharOfValue(q[2]);
    var y := ValueOf(q[2]).value;
    var (a, b, c) := ToBytes(ValueOf(q[0]).value, ValueOf(q[1]).value, y, 0);
    SextetRoundTrip(ValueOf(q[0]).value, ValueOf(q[1]).value, y, 0);
    assert y % 4 == 0 ==> c == 0;
  }

  lemma ShapeTail(s: string)
    requires CanonicalShape(s) && |s| > 4
    ensures CanonicalShape(s[4..]) && forall i :: 0 <= i < 4 ==> ValueOf(s[..4][i]).Some?
  {
    assert forall i :: 0 <= i < |s[4..]| ==> s[4..][i] == s[i + 4];
  }

  lemma ShapeStep(s: string, group: seq<Byte>, rest: seq<Byte>)
    requires |s| > 4 && |group| == 3 && QuadBytes(s[..4]) == Some(group) && QuadText(group) == s[..4]
    requires rest != [] && Decode(s[4..]) == Some(rest) && Encode(rest) == s[4..]
    ensures Decode(s) == Some(group + rest) && Encode(group + rest) == s
  {
    DecodeStep(s, group, rest);
    EncodeStep(group + rest);
    assert (group + rest)[..3] == group && (group + rest)[3..] == rest;
    JoinAt4(Encode(group + rest), s);
  }

  lemma {:induction false} ShapeDecodes(s: string)
    requires CanonicalShape(s)
    ensures Decode(s).Some? && |Decode(s).value| == |s| / 4 * 3 - 1
    ensures Encode(Decode(s).value) == s
    decreases |s|
  {
    if |s| == 4 {
      PaddedQuad(s);
      DecodeLast(s, QuadBytes(s).value);
    } else {
      ShapeTail(s);
      FullQuad(s[..4]);
      ShapeDecodes(s[4..]);
      ShapeStep(s, QuadBytes(s[..4]).value, Decode(s[4..]).value);
    }
  }

  lemma JoinAt4(a: string, b: string)
    requires |a| >= 4 && |b| >= 4 && a[..4] == b[..4] && a[4..] == b[4..]
    ensures a == b
  {
    assert a == a[..4] + a[4..];
    assert b == b[..4] + b[4..];
  }

  lemma QuadTextShape(group: seq<Byte>)
    requires 2 <= |group| <= 3
    ensures |group| == 2 ==> CanonicalShape(QuadText(group))
    ensures |group| == 3 ==> forall i :: 0 <= i < 4 ==> ValueOf(QuadText(group)[i]).Some?
  {
    var c := if |group| > 2 then group[2] else 0;
    var (w, x, y, z) := ToSextets(group[0], group[1], c);
    ValueOfChar(w);
    ValueOfChar(x);
    ValueOfChar(y);
    ValueOfChar(z);
    assert |group| == 2 ==> y % 4 == 0;
  }

  lemma ShapeAfterQuad(s: string)
    requires |s| > 4 && CanonicalShape(s[4..])
    requires forall i :: 0 <= i < 4 ==> ValueOf(s[..4][i]).Some?
    ensures CanonicalShape(s)
  {
    forall i | 0 <= i < |s| - 1 ensures ValueOf(s[i]).Some? {
      if i < 4 {
        assert s[i] == s[..4][i];
      } else {
        assert s[i] == s[4..][i - 4];
      }
    }
  }

  lemma EncodedPair(bytes: seq<Byte>)
    requires |bytes| == 2
    ensures CanonicalShape(Encode(bytes)) && |Encode(bytes)| == 4
  {
    QuadTextShape(bytes);
  }

  lemma {:induction false} EncodedShape(bytes: seq<Byte>)
    requires |bytes| % 3 == 2
    ensures CanonicalShape(Encode(bytes)) && 3 * |Encode(bytes)| == 4 * (|bytes| + 1)
    decreases |bytes|
  {
    if |bytes| == 2 {
      EncodedPair(bytes);
    } else {
      EncodedShape(bytes[3..]);
      EncodedLarge(bytes);
    }
  }

  lemma EncodedLarge(bytes: seq<Byte>)
    requires |bytes| > 3 && CanonicalShape(Encode(bytes[3..]))
    ensures CanonicalShape(Encode(bytes)) && |Encode(bytes)| == 4 + |Encode(bytes[3..])|
  {
    QuadTextShape(bytes[..3]);
    EncodeStep(bytes);
    ShapeAfterQuad(Encode(bytes));
  }

  /** Of the 44-character strings, the validator accepts exactly the encodings of 32-byte keys. */
  lemma AcceptsExactlyKeys(v: string)
    requires |v| == 44
    ensures ValidatePublicKey(v) == Success(v) <==> exists key: seq<Byte> :: |key| == 32 && Encode(key) == v
    ensures ValidatePublicKey(v).Success? ==> ValidatePublicKey(v).value == v
  {
    if ValidatePublicKey(v) == Success(v) {
      var key := Decode(v).value;
      assert |key| == 32 && Encode(key) == v;
    }
    if key: seq<Byte> :| |key| == 32 && Encode(key) == v {
      DecodeOfEncode(key);
    }
  }

  /** Equivalently: 43 alphabet characters, the 43rd with a value divisible by four, then `=`. */
  lemma AcceptsExactlyShape(v: string)
    requires |v| == 44
    ensures ValidatePublicKey(v) == Success(v) <==>
              && (forall i :: 0 <= i < 43 ==> ValueOf(v[i]).Some?)
              && ValueOf(v[42]).value % 4 == 0
              && v[43] == '='
  {
    if ValidatePublicKey(v) == Success(v) {
      EncodedShape(Decode(v).value);
    }
    if CanonicalShape(v) {
      ShapeDecodes(v);
    }
  }

  /** Accepted strings and 32-byte keys correspond one to one, so comparing the text of accepted
      keys is comparing keys. */
  lemma AcceptedTextIsTheKey(v: string, w: string)
    requires |v| == 44 && |w| == 44
    requires ValidatePublicKey(v).Success? && ValidatePublicKey(w).Success?
    ensures v == w <==> Decode(v) == Decode(w)
  {
  }

  lemma EveryKeyIsAccepted(key: seq<Byte>)
    requires |key| == 32
    ensures |Encode(key)| == 44 && ValidatePublicKey(Encode(key)) == Success(Encode(key))
    ensures Decode(Encode(key)) == Some(key)
  {
    EncodedShape(key);
    DecodeOfEncode(key);
  }

  /** Keys and accepted texts are in bijection: every accepted text is the encoding of one 32-byte
      key and of no other. */
  lemma AcceptedTextHasOneKey(v: string) returns (key: seq<Byte>)
    requires |v| == 44 && ValidatePublicKey(v).Success?
    ensures |key| == 32 && Encode(key) == v
    ensures forall other: seq<Byte> :: Encode(other) == v ==> other == key
  {
    AcceptsExactlyKeys(v);
    key :| |key| == 32 && Encode(key) == v;
    forall other: seq<Byte> | Encode(other) == v ensures other == key {
      EncodeInjective(other, key);
    }
  }

  /** Accepted keys are fit for the configuration file. */
  lemma AcceptedKeyIsOneLine(v: string)
    requires |v| == 44 && ValidatePublicKey(v).Success?
    ensures '\n' !in v
  {
    AcceptsExactlyShape(v);
  }
}

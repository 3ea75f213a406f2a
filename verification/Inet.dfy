/** IPv4 addresses and the text the database driver may hand back for an INET column. */
module Inet {
  import opened Wrappers
  import opened Text

  type Address = a: nat | a < 0x1_0000_0000

  // ----- dotted decimal -------------------------------------------------------------

  function Octets(a: Address): seq<nat> {
    [a / 0x100 / 0x100 / 0x100, a / 0x100 / 0x100 % 0x100, a / 0x100 % 0x100, a % 0x100]
  }

  /** `str(IPv4Address(a))` */
  function Dotted(a: Address): string {
    var o := Octets(a);
    Join([Decimal(o[0]), Decimal(o[1]), Decimal(o[2]), Decimal(o[3])], '.')
  }

  function FromOctets(o0: nat, o1: nat, o2: nat, o3: nat): Address
    requires o0 < 256 && o1 < 256 && o2 < 256 && o3 < 256
  {
    ((o0 * 0x100 + o1) * 0x100 + o2) * 0x100 + o3
  }

  lemma OctetsOfAddress(a: Address)
    ensures var o := Octets(a);
            o[0] < 256 && o[1] < 256 && o[2] < 256 && o[3] < 256 && FromOctets(o[0], o[1], o[2], o[3]) == a
  {
    var high, middle := a / 0x100 / 0x100, a / 0x100;
    assert high / 0x100 < 0x100;
    assert high / 0x100 * 0x100 + high % 0x100 == high;
    assert high * 0x100 + middle % 0x100 == middle;
  }

  lemma AddressOfOctets(o0: nat, o1: nat, o2: nat, o3: nat)
    requires o0 < 256 && o1 < 256 && o2 < 256 && o3 < 256
    ensures Octets(FromOctets(o0, o1, o2, o3)) == [o0, o1, o2, o3]
  {
    var high := o0 * 0x100 + o1;
    var middle := high * 0x100 + o2;
    assert (middle * 0x100 + o3) / 0x100 == middle && (middle * 0x100 + o3) % 0x100 == o3;
    assert middle / 0x100 == high && middle % 0x100 == o2;
    assert high / 0x100 == o0 && high % 0x100 == o1;
  }

  /** One to three digits, no leading zero, at most 255. */
  function ParseOctet(s: string): (r: Option<nat>)
    ensures r.Some? ==> r.value <= 255
  {
    if s == "" || !AllDigits(s) || |s| > 3 || (|s| > 1 && s[0] == '0') then None
    else if Numeral(s) > 255 then None
    else Some(Numeral(s))
  }

  /** `ipaddress.ip_address(s)`, refusing everything that is not IPv4. */
  function ParseAddress(s: string): Option<Address> {
    var parts := Split(s, '.');
    if |parts| != 4 then None
    else
      match (ParseOctet(parts[0]), ParseOctet(parts[1]), ParseOctet(parts[2]), ParseOctet(parts[3]))
      case (Some(a), Some(b), Some(c), Some(d)) => Some(FromOctets(a, b, c, d))
      case _ => None
  }

  lemma OctetOfDecimal(n: nat)
    requires n < 256
    ensures ParseOctet(Decimal(n)) == Some(n)
  {
    NumeralOfDecimal(n);
    assert |Decimal(n)| <= 3 by {
      if n >= 10 {
        assert |Decimal(n / 10)| <= 2 by {
          if n / 10 >= 10 {
            assert |Decimal(n / 10 / 10)| == 1;
          }
        }
      }
    }
  }

  lemma DecimalOfOctet(s: string)
    requires ParseOctet(s).Some?
    ensures Decimal(ParseOctet(s).value) == s
  {
    DecimalOfNumeral(s);
  }

  lemma NoDotInDigits(s: string)
    requires AllDigits(s)
    ensures '.' !in s && '/' !in s && '\n' !in s
  {
  }

  lemma SplitDotted(a: Address)
    ensures var o := Octets(a);
            Split(Dotted(a), '.') == [Decimal(o[0]), Decimal(o[1]), Decimal(o[2]), Decimal(o[3])]
  {
    var o := Octets(a);
    var parts := [Decimal(o[0]), Decimal(o[1]), Decimal(o[2]), Decimal(o[3])];
    forall p | p in parts ensures '.' !in p {
      NoDotInDigits(p);
    }
    SplitJoin(parts, '.');
  }

  /** Reading a printed address gives the address back. */
  lemma ParseOfDotted(a: Address)
    ensures ParseAddress(Dotted(a)) == Some(a)
  {
    SplitDotted(a);
    OctetsOfAddress(a);
    var o := Octets(a);
    OctetOfDecimal(o[0]);
    OctetOfDecimal(o[1]);
    OctetOfDecimal(o[2]);
    OctetOfDecimal(o[3]);
  }

  /** Only the printed form of an address reads as that address. */
  lemma DottedOfParse(s: string)
    requires ParseAddress(s).Some?
    ensures Dotted(ParseAddress(s).value) == s
  {
    var parts := Split(s, '.');
    DecimalOfOctet(parts[0]);
    DecimalOfOctet(parts[1]);
    DecimalOfOctet(parts[2]);
    DecimalOfOctet(parts[3]);
    AddressOfOctets(ParseOctet(parts[0]).value, ParseOctet(parts[1]).value,
                    ParseOctet(parts[2]).value, ParseOctet(parts[3]).value);
    assert parts == [parts[0], parts[1], parts[2], parts[3]];
    JoinSplit(s, '.');
  }

  // ----- what the driver returns ----------------------------------------------------

  datatype InetValue = Parsed(address: Address) | Raw(text: string)

  datatype InetError = NotIPv4(text: string)

  /** Normalise a driver value: cut any prefix length, then parse. */
  function CoerceIp(value: InetValue): Result<Address, InetError> {
    match value
    case Parsed(a) => Success(a)
    case Raw(text) =>
      match ParseAddress(Before(text, '/'))
      case Some(a) => Success(a)
      case None => Failure(NotIPv4(text))
  }

  /** A text coerces to an address exactly when what stands before the first slash is that
      address in canonical dotted decimal. */
  lemma CoerceExactly(text: string, a: Address)
    ensures CoerceIp(Raw(text)) == Success(a) <==> Before(text, '/') == Dotted(a)
  {
    ParseOfDotted(a);
    if ParseAddress(Before(text, '/')).Some? {
      DottedOfParse(Before(text, '/'));
    }
  }

  lemma {:induction false} CharsOfJoin(parts: seq<string>, c: char, x: char)
    requires x != c && forall p :: p in parts ==> x !in p
    ensures x !in Join(parts, c)
  {
    if |parts| > 1 {
      CharsOfJoin(parts[1..], c, x);
    }
  }

  lemma DottedHasNo(a: Address, x: char)
    requires x != '.' && !IsDigit(x)
    ensures x !in Dotted(a)
  {
    var o := Octets(a);
    CharsOfJoin([Decimal(o[0]), Decimal(o[1]), Decimal(o[2]), Decimal(o[3])], '.', x);
  }

  lemma DottedInjective(a: Address, b: Address)
    requires Dotted(a) == Dotted(b)
    ensures a == b
  {
    ParseOfDotted(a);
    ParseOfDotted(b);
  }

  /** What the table stores for an address, with or without a prefix length, coerces back. */
  lemma StoredAddressCoerces(a: Address, prefix: nat)
    ensures CoerceIp(Raw(Dotted(a))) == Success(a)
    ensures CoerceIp(Raw(Dotted(a) + "/" + Decimal(prefix))) == Success(a)
  {
    DottedHasNo(a, '/');
    BeforeUnique(Dotted(a), '/', Dotted(a));
    BeforeUnique(Dotted(a) + "/" + Decimal(prefix), '/', Dotted(a));
    ParseOfDotted(a);
  }

  /** The first address of the default overlay that a router gets, as it is printed. */
  lemma FirstRouterAddress()
    ensures Dotted(0x0A64_0002) == "10.100.0.2"
  {
    hide Decimal, Join;
    SmallDecimals();
    assert Octets(0x0A64_0002) == [10, 100, 0, 2];
    JoinFour("10", "100", "0", "2", '.');
  }

  lemma SmallDecimals()
    ensures Decimal(0) == "0" && Decimal(2) == "2" && Decimal(10) == "10" && Decimal(100) == "100"
  {
    assert Decimal(10) == "10";
  }

  lemma JoinFour(w: string, x: string, y: string, z: string, c: char)
    ensures Join([w, x, y, z], c) == w + [c] + x + [c] + y + [c] + z
  {
    assert [w, x, y, z][1..] == [x, y, z] && [x, y, z][1..] == [y, z] && [y, z][1..] == [z];
    assert Join([y, z], c) == y + [c] + z;
    assert Join([x, y, z], c) == x + [c] + (y + [c] + z);
  }
}

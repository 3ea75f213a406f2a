/** RouterOS uptimes such as "1w2d3h4m5s". */
module Uptime {
  import opened Wrappers
  import opened Text

  // ----- the grammar ----------------------------------------------------------------

  /** The five units in order, largest first, with their lengths in seconds. */
  const UNITS: seq<(char, nat)> := [('w', 604800), ('d', 86400), ('h', 3600), ('m', 60), ('s', 1)]

  /** Distinct letters, positive lengths, the last of one second. */
  predicate ValidUnits(units: seq<(char, nat)>) {
    && DistinctUnits(units)
    && (forall i :: 0 <= i < |units| ==> units[i].1 > 0 && !IsSpace(units[i].0))
    && |units| > 0 && units[|units| - 1].1 == 1
  }

  lemma UnitsAreValid()
    ensures ValidUnits(UNITS)
  {
  }

  /** One optional group of digits per unit. */
  type Groups = seq<Option<string>>

  predicate WellFormed(groups: Groups, units: seq<(char, nat)>) {
    && |groups| == |units|
    && forall i :: 0 <= i < |groups| && groups[i].Some? ==> groups[i].value != "" && AllDigits(groups[i].value)
  }

  /** The string that the groups spell. */
  function Spell(groups: Groups, units: seq<(char, nat)>): string
    requires |groups| == |units|
    decreases |units|
  {
    if units == [] then ""
    else (match groups[0] case Some(v) => v + [units[0].0] case None => "")
         + Spell(groups[1..], units[1..])
  }

  predicate AnyGroup(groups: Groups) {
    exists i :: 0 <= i < |groups| && groups[i].Some?
  }

  /** The weighted sum of the groups. */
  function Seconds(groups: Groups, units: seq<(char, nat)>): nat
    requires WellFormed(groups, units)
    decreases |units|
  {
    if units == [] then 0
    else (match groups[0] case Some(v) => Numeral(v) * units[0].1 case None => 0)
         + Seconds(groups[1..], units[1..])
  }

  predicate DistinctUnits(units: seq<(char, nat)>) {
    && (forall i :: 0 <= i < |units| ==> !IsDigit(units[i].0))
    && (forall i, j :: 0 <= i < j < |units| ==> units[i].0 != units[j].0)
  }

  // ----- matching -------------------------------------------------------------------

  /** The digits a string starts with. */
  function LeadingDigits(s: string): (r: string)
    ensures r <= s && AllDigits(r)
    ensures |r| < |s| ==> !IsDigit(s[|r|])
  {
    if s == "" || !IsDigit(s[0]) then "" else [s[0]] + LeadingDigits(s[1..])
  }

  /** Match the anchored pattern: each unit in turn takes its digits or nothing, and nothing may
      be left over. */
  function Match(s: string, units: seq<(char, nat)>): (groups: Option<Groups>)
    ensures groups.Some? ==> WellFormed(groups.value, units) && Spell(groups.value, units) == s
    decreases |units|
  {
    if units == [] then (if s == "" then Some([]) else None)
    else
      var digits := LeadingDigits(s);
      var n := |digits|;
      if 0 < n < |s| && s[n] == units[0].0 then
        (match Match(s[n + 1..], units[1..])
         case Some(rest) =>
           assert s == digits + [units[0].0] + s[n + 1..];
           assert ([Some(digits)] + rest)[1..] == rest;
           Some([Some(digits)] + rest)
         case None => None)
      else
        (match Match(s, units[1..])
         case Some(rest) =>
           assert ([None] + rest)[1..] == rest;
           Some([None] + rest)
         case None => None)
  }

  lemma {:induction false} LeadingDigitsOf(digits: string, rest: string)
    requires AllDigits(digits) && (rest != "" ==> !IsDigit(rest[0]))
    ensures LeadingDigits(digits + rest) == digits
  {
    if digits == "" {
      assert digits + rest == rest;
    } else {
      assert (digits + rest)[1..] == digits[1..] + rest;
      LeadingDigitsOf(digits[1..], rest);
    }
  }

  predicate UnitIn(c: char, units: seq<(char, nat)>)
    decreases |units|
  {
    units != [] && (units[0].0 == c || UnitIn(c, units[1..]))
  }

  lemma {:induction false} UnitInAt(c: char, units: seq<(char, nat)>) returns (i: nat)
    requires UnitIn(c, units)
    ensures i < |units| && units[i].0 == c
    decreases |units|
  {
    if units[0].0 == c {
      i := 0;
    } else {
      var j := UnitInAt(c, units[1..]);
      i := j + 1;
    }
  }

  /** A unit that comes later is not the first one. */
  lemma LaterUnitDiffers(c: char, units: seq<(char, nat)>)
    requires DistinctUnits(units) && units != [] && UnitIn(c, units[1..])
    ensures c != units[0].0
  {
    var i := UnitInAt(c, units[1..]);
    assert units[i + 1].0 == c;
  }

  /** What follows the leading digits of a spelled string is the unit of its first group. */
  lemma {:induction false} SpellStart(groups: Groups, units: seq<(char, nat)>)
    requires WellFormed(groups, units) && DistinctUnits(units)
    ensures var s := Spell(groups, units);
            s == "" || (0 < |LeadingDigits(s)| < |s| && UnitIn(s[|LeadingDigits(s)|], units))
    decreases |units|
  {
    if units != [] {
      var rest := Spell(groups[1..], units[1..]);
      if groups[0].Some? {
        SpellPresent(groups[0].value, units[0].0, rest);
      } else {
        assert Spell(groups, units) == rest;
        SpellStart(groups[1..], units[1..]);
      }
    }
  }

  lemma SpellPresent(v: string, unit: char, rest: string)
    requires AllDigits(v) && !IsDigit(unit)
    ensures LeadingDigits(v + [unit] + rest) == v
  {
    assert v + [unit] + rest == v + ([unit] + rest);
    LeadingDigitsOf(v, [unit] + rest);
  }

  lemma MatchPresent(v: string, unit: char, rest: string, units: seq<(char, nat)>)
    requires v != "" && AllDigits(v) && !IsDigit(unit) && units != [] && units[0].0 == unit
    requires Match(rest, units[1..]).Some?
    ensures Match(v + [unit] + rest, units) == Some([Some(v)] + Match(rest, units[1..]).value)
  {
    var s := v + [unit] + rest;
    assert s == v + ([unit] + rest);
    LeadingDigitsOf(v, [unit] + rest);
    assert s[|v| + 1..] == rest;
  }

  /** Every spelled string matches, and with the groups that spell it: the decomposition of a
      string is unique. */
  lemma {:induction false} MatchOfSpell(groups: Groups, units: seq<(char, nat)>)
    requires WellFormed(groups, units) && DistinctUnits(units)
    ensures Match(Spell(groups, units), units) == Some(groups)
    decreases |units|
  {
    if units != [] {
      var rest := Spell(groups[1..], units[1..]);
      MatchOfSpell(groups[1..], units[1..]);
      assert groups == [groups[0]] + groups[1..];
      match groups[0]
      case Some(v) =>
        MatchPresent(v, units[0].0, rest, units);
      case None =>
        SpellStart(groups[1..], units[1..]);
        assert Spell(groups, units) == rest;
        if rest != "" {
          LaterUnitDiffers(rest[|LeadingDigits(rest)|], units);
        }
        MatchAbsent(rest, units);
    }
  }

  lemma MatchAbsent(s: string, units: seq<(char, nat)>)
    requires units != [] && Match(s, units[1..]).Some?
    requires var n := |LeadingDigits(s)|; n == 0 || n == |s| || s[n] != units[0].0
    ensures Match(s, units) == Some([None] + Match(s, units[1..]).value)
  {
  }

  lemma DecompositionIsUnique(a: Groups, b: Groups, units: seq<(char, nat)>)
    requires DistinctUnits(units) && WellFormed(a, units) && WellFormed(b, units)
    requires Spell(a, units) == Spell(b, units)
    ensures a == b
  {
    MatchOfSpell(a, units);
    MatchOfSpell(b, units);
  }

  // ----- the parser -----------------------------------------------------------------

  /** The groups of a string that is in the grammar, with at least one unit present. */
  predicate Denotes(s: string, groups: Groups, units: seq<(char, nat)>) {
    WellFormed(groups, units) && AnyGroup(groups) && Spell(groups, units) == Strip(s)
  }

  function Uptime(s: string, units: seq<(char, nat)>): nat {
    match Match(Strip(s), units)
    case Some(groups) => if AnyGroup(groups) then Seconds(groups, units) else 0
    case None => 0
  }

  /** The parser's value is the weighted sum for a string in the grammar, and 0 for any other. */
  lemma UptimeIsExact(s: string, units: seq<(char, nat)>)
    requires DistinctUnits(units)
    ensures forall groups :: Denotes(s, groups, units) ==> Uptime(s, units) == Seconds(groups, units)
    ensures (forall groups :: !Denotes(s, groups, units)) ==> Uptime(s, units) == 0
  {
    forall groups | Denotes(s, groups, units) ensures Uptime(s, units) == Seconds(groups, units) {
      MatchOfSpell(groups, units);
    }
    var m := Match(Strip(s), units);
    if m.Some? && AnyGroup(m.value) {
      assert Denotes(s, m.value, units);
    }
  }

  lemma {:induction false} SecondsUpTo(groups: Groups, units: seq<(char, nat)>, k: nat)
    requires WellFormed(groups, units) && k < |units|
    ensures Seconds(groups[..k + 1], units[..k + 1])
         == Seconds(groups[..k], units[..k])
            + (match groups[k] case Some(v) => Numeral(v) * units[k].1 case None => 0)
    decreases k
  {
    if k > 0 {
      SecondsUpTo(groups[1..], units[1..], k - 1);
      assert groups[..k + 1][1..] == groups[1..][..k] && units[..k + 1][1..] == units[1..][..k];
      assert groups[..k][1..] == groups[1..][..k - 1] && units[..k][1..] == units[1..][..k - 1];
    }
  }

  /** Match, then add up the groups that are present, unit by unit. */
  method ParseUptime(s: string, units: seq<(char, nat)>) returns (total: nat)
    requires DistinctUnits(units)
    ensures total == Uptime(s, units)
  {
    total := 0;
    if s == "" {
      MatchOfEmpty(units);
      return;
    }
    var m := Match(Strip(s), units);
    if m.None? || !AnyGroup(m.value) {
      return;
    }
    total := AddUp(m.value, units);
  }

  /** The loop over the units. */
  method AddUp(groups: Groups, units: seq<(char, nat)>) returns (total: nat)
    requires WellFormed(groups, units)
    ensures total == Seconds(groups, units)
  {
    total := 0;
    for k := 0 to |units|
      invariant total == Seconds(groups[..k], units[..k])
    {
      SecondsUpTo(groups, units, k);
      if groups[k].Some? {
        total := total + Numeral(groups[k].value) * units[k].1;
      }
    }
    assert groups[..|units|] == groups && units[..|units|] == units;
  }

  lemma {:induction false} MatchOfEmpty(units: seq<(char, nat)>)
    ensures Match("", units).Some? && !AnyGroup(Match("", units).value)
    decreases |units|
  {
    if units != [] {
      MatchOfEmpty(units[1..]);
      var groups := Match("", units).value;
      assert groups[1..] == Match("", units[1..]).value;
      assert forall i :: 1 <= i < |groups| ==> groups[i] == groups[1..][i - 1];
    }
  }

  // ----- the canonical rendering ----------------------------------------------------

  /** Largest unit first, units that are zero left out. */
  function SplitSeconds(n: nat, units: seq<(char, nat)>): (groups: Groups)
    requires forall i :: 0 <= i < |units| ==> units[i].1 > 0
    ensures WellFormed(groups, units)
    decreases |units|
  {
    if units == [] then []
    else
      var q := n / units[0].1;
      [if q == 0 then None else Some(Decimal(q))] + SplitSeconds(n % units[0].1, units[1..])
  }

  function Canonical(n: nat, units: seq<(char, nat)>): Groups
    requires ValidUnits(units)
  {
    if n == 0 then seq(|units|, i => if i == |units| - 1 then Some("0") else None)
    else SplitSeconds(n, units)
  }

  /** The canonical rendering; no time at all is written "0s". */
  function Render(n: nat, units: seq<(char, nat)>): string
    requires ValidUnits(units)
  {
    Spell(Canonical(n, units), units)
  }

  lemma {:induction false} SplitAddsUp(n: nat, units: seq<(char, nat)>)
    requires forall i :: 0 <= i < |units| ==> units[i].1 > 0
    requires |units| > 0 && units[|units| - 1].1 == 1
    ensures Seconds(SplitSeconds(n, units), units) == n
    ensures n > 0 ==> AnyGroup(SplitSeconds(n, units))
    decreases |units|
  {
    hide Decimal, Numeral, AnyGroup, SplitSeconds;
    var groups, q := SplitSeconds(n, units), n / units[0].1;
    SplitFirst(n, units);
    SecondsFirst(q, groups, units);
    AnyGroupFirst(groups);
    QuotientAndRemainder(n, units[0].1);
    if |units| > 1 {
      SplitAddsUp(n % units[0].1, units[1..]);
    } else {
      assert groups[1..] == [];
    }
  }

  lemma QuotientAndRemainder(n: nat, u: nat)
    requires u > 0
    ensures n == n / u * u + n % u
    ensures n / u == 0 ==> n % u == n
  {
  }

  lemma SplitFirst(n: nat, units: seq<(char, nat)>)
    requires (forall i :: 0 <= i < |units| ==> units[i].1 > 0) && units != []
    ensures var groups := SplitSeconds(n, units);
            && groups[0] == (if n / units[0].1 == 0 then None else Some(Decimal(n / units[0].1)))
            && groups[1..] == SplitSeconds(n % units[0].1, units[1..])
  {
    hide Decimal;
  }

  lemma SecondsFirst(q: nat, groups: Groups, units: seq<(char, nat)>)
    requires WellFormed(groups, units) && units != []
    requires groups[0] == if q == 0 then None else Some(Decimal(q))
    ensures Seconds(groups, units) == q * units[0].1 + Seconds(groups[1..], units[1..])
  {
    hide Decimal, Numeral;
    NumeralOfDecimal(q);
  }

  lemma AnyGroupFirst(groups: Groups)
    requires groups != []
    ensures groups[0].Some? || AnyGroup(groups[1..]) ==> AnyGroup(groups)
  {
    if i :| 0 <= i < |groups[1..]| && groups[1..][i].Some? {
      assert groups[i + 1].Some?;
    }
  }

  predicate UptimeChar(c: char, units: seq<(char, nat)>) {
    IsDigit(c) || exists i :: 0 <= i < |units| && units[i].0 == c
  }

  lemma {:induction false} SpellChars(groups: Groups, units: seq<(char, nat)>)
    requires WellFormed(groups, units)
    ensures forall c :: c in Spell(groups, units) ==> UptimeChar(c, units)
    decreases |units|
  {
    if units != [] {
      SpellChars(groups[1..], units[1..]);
      forall c | c in Spell(groups, units) ensures UptimeChar(c, units) {
        if c in Spell(groups[1..], units[1..]) && !IsDigit(c) {
          var i :| 0 <= i < |units[1..]| && units[1..][i].0 == c;
          assert units[i + 1].0 == c;
        } else if !IsDigit(c) {
          assert units[0].0 == c;
        }
      }
    }
  }

  lemma SpellIsPlain(groups: Groups, units: seq<(char, nat)>)
    requires ValidUnits(units) && WellFormed(groups, units)
    ensures Strip(Spell(groups, units)) == Spell(groups, units)
  {
    hide Spell, Strip;
    var s := Spell(groups, units);
    SpellChars(groups, units);
    assert s != "" ==> s[0] in s && s[|s| - 1] in s;
    StripIsPlain(s);
  }

  lemma {:induction false} ZeroSeconds(groups: Groups, units: seq<(char, nat)>)
    requires WellFormed(groups, units)
    requires forall i :: 0 <= i < |groups| ==> groups[i].None? || groups[i] == Some("0")
    ensures Seconds(groups, units) == 0
    decreases |units|
  {
    if units != [] {
      ZeroSeconds(groups[1..], units[1..]);
      assert "0"[..0] == "";
      assert Numeral("0") == 0;
    }
  }

  lemma CanonicalHasGroup(n: nat, units: seq<(char, nat)>)
    requires ValidUnits(units)
    ensures AnyGroup(Canonical(n, units)) && Seconds(Canonical(n, units), units) == n
  {
    var groups := Canonical(n, units);
    if n == 0 {
      ZeroSeconds(groups, units);
      assert groups[|units| - 1].Some?;
    } else {
      SplitAddsUp(n, units);
    }
  }

  /** Parsing the canonical rendering of any number of seconds gives that number back. */
  lemma ParseOfRender(n: nat, units: seq<(char, nat)>)
    requires ValidUnits(units)
    ensures Uptime(Render(n, units), units) == n && Render(n, units) != ""
  {
    CanonicalHasGroup(n, units);
    SpellIsPlain(Canonical(n, units), units);
    MatchOfSpell(Canonical(n, units), units);
    MatchOfEmpty(units);
  }

  // ----- the five units -------------------------------------------------------------

  /** RouterOS uptimes: the weighted sum of weeks, days, hours, minutes and seconds for text in the
      grammar, and 0 for any other. */
  lemma RouterOsUptimeIsExact(s: string)
    ensures forall groups :: Denotes(s, groups, UNITS) ==> Uptime(s, UNITS) == Seconds(groups, UNITS)
    ensures (forall groups :: !Denotes(s, groups, UNITS)) ==> Uptime(s, UNITS) == 0
  {
    UnitsAreValid();
    UptimeIsExact(s, UNITS);
  }

  /** What RouterOS prints for n seconds is read as n. */
  lemma RouterOsParseOfRender(n: nat)
    ensures ValidUnits(UNITS) && Uptime(Render(n, UNITS), UNITS) == n
  {
    UnitsAreValid();
    ParseOfRender(n, UNITS);
  }

  /** One unit of an uptime as RouterOS writes it, or nothing. */
  function Piece(n: Option<nat>, unit: string): string {
    match n case Some(v) => Decimal(v) + unit case None => ""
  }

  function OrZero(n: Option<nat>): nat {
    match n case Some(v) => v case None => 0
  }

  function Group(n: Option<nat>): Option<string> {
    match n case Some(v) => Some(Decimal(v)) case None => None
  }

  /** Weeks of seven days, days of 24 hours, hours of 60 minutes, minutes of 60 seconds, any of them
      left out but not all. */
  lemma ElapsedTime(w: Option<nat>, d: Option<nat>, h: Option<nat>, m: Option<nat>, s: Option<nat>)
    requires w.Some? || d.Some? || h.Some? || m.Some? || s.Some?
    ensures Uptime(Piece(w, "w") + (Piece(d, "d") + (Piece(h, "h") + (Piece(m, "m") + Piece(s, "s")))), UNITS)
         == (((OrZero(w) * 7 + OrZero(d)) * 24 + OrZero(h)) * 60 + OrZero(m)) * 60 + OrZero(s)
  {
    hide Decimal, Numeral, Strip, Match, Uptime;
    var groups := [Group(w), Group(d), Group(h), Group(m), Group(s)];
    assert groups[0] == Group(w) && groups[1] == Group(d) && groups[2] == Group(h);
    assert groups[3] == Group(m) && groups[4] == Group(s);
    UnitsAreValid();
    GroupsSpell(w, d, h, m, s);
    GroupsAddUp(w, d, h, m, s);
    SpellIsPlain(groups, UNITS);
    RouterOsUptimeIsExact(Spell(groups, UNITS));
    assert Denotes(Spell(groups, UNITS), groups, UNITS);
  }

  lemma SpellNext(n: Option<nat>, groups: Groups, unit: (char, nat), units: seq<(char, nat)>)
    requires |groups| == |units|
    ensures Spell([Group(n)] + groups, [unit] + units) == Piece(n, [unit.0]) + Spell(groups, units)
  {
    assert ([Group(n)] + groups)[1..] == groups && ([unit] + units)[1..] == units;
  }

  lemma SecondsNext(n: Option<nat>, groups: Groups, unit: (char, nat), units: seq<(char, nat)>)
    requires WellFormed(groups, units)
    ensures WellFormed([Group(n)] + groups, [unit] + units)
    ensures Seconds([Group(n)] + groups, [unit] + units) == OrZero(n) * unit.1 + Seconds(groups, units)
  {
    assert ([Group(n)] + groups)[1..] == groups && ([unit] + units)[1..] == units;
    NumeralOfDecimal(OrZero(n));
  }

  lemma GroupsSpell(w: Option<nat>, d: Option<nat>, h: Option<nat>, m: Option<nat>, s: Option<nat>)
    ensures Spell([Group(w), Group(d), Group(h), Group(m), Group(s)], UNITS)
         == Piece(w, "w") + (Piece(d, "d") + (Piece(h, "h") + (Piece(m, "m") + Piece(s, "s"))))
  {
    hide Decimal, Piece, Group, Spell;
    var u := UNITS;
    SpellNext(s, [], u[4], []);
    SpellNext(m, [Group(s)], u[3], [u[4]]);
    SpellNext(h, [Group(m), Group(s)], u[2], [u[3], u[4]]);
    SpellNext(d, [Group(h), Group(m), Group(s)], u[1], [u[2], u[3], u[4]]);
    SpellNext(w, [Group(d), Group(h), Group(m), Group(s)], u[0], [u[1], u[2], u[3], u[4]]);
    ListsOfFive(Group(w), Group(d), Group(h), Group(m), Group(s));
    ListsOfFive(u[0], u[1], u[2], u[3], u[4]);
    assert u == [u[0], u[1], u[2], u[3], u[4]];
    SpellNone();
  }

  lemma SpellNone()
    ensures Spell([], []) == "" && Seconds([], []) == 0
  {
  }

  lemma ListsOfFive<T>(v: T, w: T, x: T, y: T, z: T)
    ensures [z] + [] == [z] && [y] + [z] == [y, z] && [x] + [y, z] == [x, y, z]
    ensures [w] + [x, y, z] == [w, x, y, z] && [v] + [w, x, y, z] == [v, w, x, y, z]
  {
  }

  lemma GroupsAddUp(w: Option<nat>, d: Option<nat>, h: Option<nat>, m: Option<nat>, s: Option<nat>)
    ensures var groups := [Group(w), Group(d), Group(h), Group(m), Group(s)];
            && WellFormed(groups, UNITS)
            && Seconds(groups, UNITS)
               == (((OrZero(w) * 7 + OrZero(d)) * 24 + OrZero(h)) * 60 + OrZero(m)) * 60 + OrZero(s)
  {
    hide Decimal, Group, Seconds, WellFormed;
    var u := UNITS;
    NoneWellFormed();
    SecondsNext(s, [], u[4], []);
    SecondsNext(m, [Group(s)] + [], u[3], [u[4]] + []);
    ListsOfFive(Group(w), Group(d), Group(h), Group(m), Group(s));
    ListsOfFive(u[0], u[1], u[2], u[3], u[4]);
    SecondsNext(h, [Group(m), Group(s)], u[2], [u[3], u[4]]);
    SecondsNext(d, [Group(h), Group(m), Group(s)], u[1], [u[2], u[3], u[4]]);
    SecondsNext(w, [Group(d), Group(h), Group(m), Group(s)], u[0], [u[1], u[2], u[3], u[4]]);
    assert u == [u[0], u[1], u[2], u[3], u[4]];
    SpellNone();
  }

  lemma NoneWellFormed()
    ensures WellFormed([], [])
  {
  }
}

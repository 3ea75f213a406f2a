/** The interface measurement: from the untyped entries of a heartbeat to points. The tag with the
    router id and the time stamp, the same for every point of a heartbeat, are left out. */
module InterfacePoints {
  import opened Wrappers
  import opened Uptime

  /** A value decoded from the payload; Null stands for None and for a missing key. */
  datatype Value =
    | Null | Flag(flag: bool) | Whole(number: int) | Fraction(value: real) | Infinite | NotANumber
    | Text(text: string) | Items(items: seq<Value>) | Dict(entries: Entry)

  type Entry = map<string, Value>

  function Get(entry: Entry, key: string): Value {
    if key in entry then entry[key] else Null
  }

  // ----- lists built by appending ---------------------------------------------------

  /** What a loop collects that appends f of each item. */
  function Gather<S, T>(items: seq<S>, f: S -> seq<T>): seq<T>
    decreases |items|
  {
    if items == [] then [] else Gather(items[..|items| - 1], f) + f(items[|items| - 1])
  }

  lemma GatherNext<S, T>(items: seq<S>, f: S -> seq<T>, i: nat)
    requires i < |items|
    ensures Gather(items[..i + 1], f) == Gather(items[..i], f) + f(items[i])
  {
    assert items[..i + 1][..i] == items[..i];
  }

  lemma {:induction false} GatherConcat<S, T>(a: seq<S>, b: seq<S>, f: S -> seq<T>)
    ensures Gather(a + b, f) == Gather(a, f) + Gather(b, f)
    decreases |b|
  {
    if b == [] {
      assert a + b == a;
    } else {
      var n := |b| - 1;
      GatherConcat(a, b[..n], f);
      assert (a + b)[..|a| + n] == a + b[..n];
    }
  }

  lemma {:induction false} GatherExactly<S, T>(items: seq<S>, f: S -> seq<T>, x: T)
    ensures x in Gather(items, f) <==> exists i :: 0 <= i < |items| && x in f(items[i])
    decreases |items|
  {
    if items != [] {
      var n := |items| - 1;
      GatherExactly(items[..n], f, x);
      assert forall i :: 0 <= i < n ==> items[..n][i] == items[i];
      if i :| 0 <= i < |items| && x in f(items[i]) {
        assert i < n ==> x in f(items[..n][i]);
      }
    }
  }

  // ----- conversion to an integer ---------------------------------------------------

  datatype Converted = Number(n: int) | Unusable | Overflow

  /** How `int` reads text. */
  type TextReader = string -> Option<int>

  function Truncate(x: real): int {
    if x >= 0.0 then x.Floor else -(-x).Floor
  }

  /** `int(value)`: TypeError and ValueError make a value unusable, OverflowError is its own case. */
  function ToInt(reader: TextReader, v: Value): Converted {
    match v
    case Flag(b) => Number(if b then 1 else 0)
    case Whole(n) => Number(n)
    case Fraction(x) => Number(Truncate(x))
    case Infinite => Overflow
    case Text(t) => (match reader(t) case Some(n) => Number(n) case None => Unusable)
    case _ => Unusable
  }

  // ----- fields ---------------------------------------------------------------------

  datatype Kind = Ethernet | Wireless | Wifi

  datatype FieldValue = IntField(n: int) | BoolField(b: bool) | TextField(t: string)

  datatype PointField = PointField(name: string, value: FieldValue)

  datatype Point = Point(interfaceName: string, kind: Kind, fields: seq<PointField>)

  datatype Shape = Counter | Switch | Words

  /** A field a point may carry, and what its value must look like. */
  datatype Spec = Spec(name: string, shape: Shape)

  function Specs(names: seq<string>, shape: Shape): (r: seq<Spec>)
    ensures |r| == |names|
  {
    seq(|names|, i requires 0 <= i < |names| => Spec(names[i], shape))
  }

  const COUNTERS: seq<string> := ["rx_bytes", "tx_bytes", "rx_packets", "tx_packets"]
  const WIRELESS_NUMBERS: seq<string> := ["frequency"]
  const WIRELESS_WORDS: seq<string> := ["ssid", "band", "channel_width", "tx_power", "mode"]
  const WIFI_WORDS: seq<string> := ["ssid", "channel", "configuration"]

  function LinkField(kind: Kind): string {
    if kind == Ethernet then "running" else "disabled"
  }

  function Common(kind: Kind): seq<Spec> {
    Specs(COUNTERS, Counter) + [Spec(LinkField(kind), Switch)]
  }

  function Metadata(kind: Kind): seq<Spec> {
    match kind
    case Ethernet => []
    case Wireless => Specs(WIRELESS_NUMBERS, Counter) + Specs(WIRELESS_WORDS, Words)
    case Wifi => Specs(WIFI_WORDS, Words)
  }

  /** The fields that are legal for a kind, in the order they are written. */
  function Legal(kind: Kind): seq<Spec> {
    Common(kind) + Metadata(kind)
  }

  /** The field value that an entry value gives, if it is usable. */
  function Usable(reader: TextReader, shape: Shape, v: Value): Option<FieldValue> {
    match shape
    case Counter =>
      (match ToInt(reader, v) case Number(n) => Some(IntField(n)) case _ => None)
    case Switch => if v.Flag? then Some(BoolField(v.flag)) else None
    case Words => if v.Text? && v.text != "" then Some(TextField(v.text)) else None
  }

  /** Converting the value raises an error that nothing on the way catches. */
  predicate Raises(reader: TextReader, entry: Entry, spec: Spec) {
    spec.shape == Counter && ToInt(reader, Get(entry, spec.name)).Overflow?
  }

  predicate AnyRaises(reader: TextReader, entry: Entry, specs: seq<Spec>) {
    exists i :: 0 <= i < |specs| && Raises(reader, entry, specs[i])
  }

  function FieldsOf(reader: TextReader, entry: Entry, specs: seq<Spec>): seq<PointField> {
    Gather(specs, spec => FieldOf(reader, entry, spec))
  }

  function FieldOf(reader: TextReader, entry: Entry, spec: Spec): seq<PointField> {
    match Usable(reader, spec.shape, Get(entry, spec.name))
    case Some(value) => [PointField(spec.name, value)]
    case None => []
  }

  /** The point of an entry: none without a name or without a usable field. */
  function PointOf(reader: TextReader, kind: Kind, entry: Entry): Option<Point> {
    var name := Get(entry, "name");
    if !name.Text? || name.text == "" then None
    else
      var fields := FieldsOf(reader, entry, Legal(kind));
      if fields == [] then None else Some(Point(name.text, kind, fields))
  }

  predicate EntryRaises(reader: TextReader, kind: Kind, entry: Entry) {
    var name := Get(entry, "name");
    name.Text? && name.text != "" && AnyRaises(reader, entry, Legal(kind))
  }

  /** The points of one array of the payload; anything but a list counts as an empty one. */
  function PointsOf(reader: TextReader, kind: Kind, items: seq<Value>): seq<Point> {
    Gather(items, item => ItemPoints(reader, kind, item))
  }

  function ItemPoints(reader: TextReader, kind: Kind, item: Value): seq<Point> {
    if !item.Dict? then []
    else
      match PointOf(reader, kind, item.entries)
      case Some(point) => [point]
      case None => []
  }

  predicate ItemRaises(reader: TextReader, kind: Kind, item: Value) {
    item.Dict? && EntryRaises(reader, kind, item.entries)
  }

  predicate ItemsRaise(reader: TextReader, kind: Kind, items: seq<Value>) {
    exists i :: 0 <= i < |items| && ItemRaises(reader, kind, items[i])
  }

  function ArrayOf(payload: Entry, key: string): seq<Value> {
    match Get(payload, key)
    case Items(items) => items
    case _ => []
  }

  // ----- the builder ----------------------------------------------------------------

  datatype BuildError = IntOverflow

  lemma FieldsConcat(reader: TextReader, entry: Entry, a: seq<Spec>, b: seq<Spec>)
    ensures FieldsOf(reader, entry, a + b) == FieldsOf(reader, entry, a) + FieldsOf(reader, entry, b)
  {
    GatherConcat(a, b, spec => FieldOf(reader, entry, spec));
  }

  lemma FieldsNext(reader: TextReader, entry: Entry, specs: seq<Spec>, i: nat)
    requires i < |specs|
    ensures FieldsOf(reader, entry, specs[..i + 1])
         == FieldsOf(reader, entry, specs[..i]) + FieldOf(reader, entry, specs[i])
  {
    GatherNext(specs, spec => FieldOf(reader, entry, spec), i);
  }

  lemma PointsNext(reader: TextReader, kind: Kind, items: seq<Value>, i: nat)
    requires i < |items|
    ensures PointsOf(reader, kind, items[..i + 1])
         == PointsOf(reader, kind, items[..i]) + ItemPoints(reader, kind, items[i])
  {
    GatherNext(items, item => ItemPoints(reader, kind, item), i);
  }

  lemma RaisesConcat(reader: TextReader, entry: Entry, a: seq<Spec>, b: seq<Spec>)
    ensures AnyRaises(reader, entry, a + b) <==> AnyRaises(reader, entry, a) || AnyRaises(reader, entry, b)
  {
    if AnyRaises(reader, entry, a) {
      var i :| 0 <= i < |a| && Raises(reader, entry, a[i]);
      assert (a + b)[i] == a[i];
    }
    if AnyRaises(reader, entry, b) {
      var i :| 0 <= i < |b| && Raises(reader, entry, b[i]);
      assert (a + b)[|a| + i] == b[i];
    }
  }

  /** Numeric fields, converted one by one; a value that does not convert is skipped. */
  method AddNumbers(reader: TextReader, entry: Entry, names: seq<string>, fields: seq<PointField>)
      returns (r: Result<seq<PointField>, BuildError>)
    ensures r.Failure? <==> AnyRaises(reader, entry, Specs(names, Counter))
    ensures r.Success? ==> r.value == fields + FieldsOf(reader, entry, Specs(names, Counter))
  {
    var out := fields;
    ghost var specs := Specs(names, Counter);
    for i := 0 to |names|
      invariant out == fields + FieldsOf(reader, entry, specs[..i])
      invariant forall j :: 0 <= j < i ==> !Raises(reader, entry, specs[j])
    {
      FieldsNext(reader, entry, specs, i);
      var v := Get(entry, names[i]);
      if !v.Null? {
        match ToInt(reader, v) {
          case Overflow =>
            assert Raises(reader, entry, specs[i]);
            return Failure(IntOverflow);
          case Number(n) =>
            out := out + [PointField(names[i], IntField(n))];
          case Unusable =>
        }
      }
    }
    assert specs[..|names|] == specs;
    return Success(out);
  }

  lemma OneField(reader: TextReader, entry: Entry, spec: Spec)
    ensures FieldsOf(reader, entry, [spec]) == FieldOf(reader, entry, spec)
    ensures AnyRaises(reader, entry, [spec]) <==> Raises(reader, entry, spec)
  {
    var specs := [spec];
    GatherNext(specs, x => FieldOf(reader, entry, x), 0);
    FieldsNext(reader, entry, specs, 0);
    assert specs[..1] == specs && specs[..0] == [];
    assert specs[0] == spec;
  }

  /** Text fields; anything but non-empty text is skipped. */
  method AddWords(reader: TextReader, entry: Entry, names: seq<string>, fields: seq<PointField>)
      returns (out: seq<PointField>)
    ensures out == fields + FieldsOf(reader, entry, Specs(names, Words))
    ensures !AnyRaises(reader, entry, Specs(names, Words))
  {
    out := fields;
    ghost var specs := Specs(names, Words);
    for i := 0 to |names|
      invariant out == fields + FieldsOf(reader, entry, specs[..i])
    {
      FieldsNext(reader, entry, specs, i);
      var v := Get(entry, names[i]);
      if v.Text? && v.text != "" {
        out := out + [PointField(names[i], TextField(v.text))];
      }
    }
    assert specs[..|names|] == specs;
  }

  method AddSwitch(reader: TextReader, entry: Entry, name: string, fields: seq<PointField>)
      returns (out: seq<PointField>)
    ensures out == fields + FieldsOf(reader, entry, [Spec(name, Switch)])
    ensures !AnyRaises(reader, entry, [Spec(name, Switch)])
  {
    OneField(reader, entry, Spec(name, Switch));
    var v := Get(entry, name);
    out := if v.Flag? then fields + [PointField(name, BoolField(v.flag))] else fields;
  }

  /** Counters and link state, which every kind has. */
  method AddCommon(reader: TextReader, kind: Kind, entry: Entry) returns (r: Result<seq<PointField>, BuildError>)
    ensures r.Failure? <==> AnyRaises(reader, entry, Common(kind))
    ensures r.Success? ==> r.value == FieldsOf(reader, entry, Common(kind))
  {
    var link := [Spec(LinkField(kind), Switch)];
    FieldsConcat(reader, entry, Specs(COUNTERS, Counter), link);
    RaisesConcat(reader, entry, Specs(COUNTERS, Counter), link);
    OneField(reader, entry, link[0]);
    var counters := AddNumbers(reader, entry, COUNTERS, []);
    if counters.Failure? {
      return counters;
    }
    var fields := AddSwitch(reader, entry, LinkField(kind), counters.value);
    return Success(fields);
  }

  /** What only wireless or only wifi has. */
  method AddMetadata(reader: TextReader, kind: Kind, entry: Entry, fields: seq<PointField>)
      returns (r: Result<seq<PointField>, BuildError>)
    ensures r.Failure? <==> AnyRaises(reader, entry, Metadata(kind))
    ensures r.Success? ==> r.value == fields + FieldsOf(reader, entry, Metadata(kind))
  {
    var out := fields;
    if kind == Wireless {
      FieldsConcat(reader, entry, Specs(WIRELESS_NUMBERS, Counter), Specs(WIRELESS_WORDS, Words));
      RaisesConcat(reader, entry, Specs(WIRELESS_NUMBERS, Counter), Specs(WIRELESS_WORDS, Words));
      var numbers := AddNumbers(reader, entry, WIRELESS_NUMBERS, out);
      if numbers.Failure? {
        return numbers;
      }
      out := AddWords(reader, entry, WIRELESS_WORDS, numbers.value);
    }
    if kind == Wifi {
      out := AddWords(reader, entry, WIFI_WORDS, out);
    }
    return Success(out);
  }

  method BuildOne(reader: TextReader, kind: Kind, entry: Entry) returns (r: Result<Option<Point>, BuildError>)
    ensures r == if EntryRaises(reader, kind, entry) then Failure(IntOverflow)
                 else Success(PointOf(reader, kind, entry))
  {
    var name := Get(entry, "name");
    if !name.Text? || name.text == "" {
      return Success(None);
    }
    FieldsConcat(reader, entry, Common(kind), Metadata(kind));
    RaisesConcat(reader, entry, Common(kind), Metadata(kind));
    var common := AddCommon(reader, kind, entry);
    if common.Failure? {
      return Failure(IntOverflow);
    }
    var fields := AddMetadata(reader, kind, entry, common.value);
    if fields.Failure? {
      return Failure(IntOverflow);
    }
    if fields.value == [] {
      return Success(None);
    }
    return Success(Some(Point(name.text, kind, fields.value)));
  }

  /** One array of the payload, entry by entry. */
  method BuildArray(reader: TextReader, kind: Kind, items: seq<Value>, before: seq<Point>)
      returns (r: Result<seq<Point>, BuildError>)
    ensures r == if ItemsRaise(reader, kind, items) then Failure(IntOverflow)
                 else Success(before + PointsOf(reader, kind, items))
  {
    hide PointOf, EntryRaises;
    var points := before;
    for i := 0 to |items|
      invariant points == before + PointsOf(reader, kind, items[..i])
      invariant forall j :: 0 <= j < i ==> !ItemRaises(reader, kind, items[j])
    {
      PointsNext(reader, kind, items, i);
      if items[i].Dict? {
        var p := BuildOne(reader, kind, items[i].entries);
        if p.Failure? {
          assert ItemRaises(reader, kind, items[i]);
          return Failure(IntOverflow);
        }
        if p.value.Some? {
          points := points + [p.value.value];
        }
      }
    }
    assert items[..|items|] == items;
    return Success(points);
  }

  predicate PayloadRaises(reader: TextReader, payload: Entry) {
    || ItemsRaise(reader, Ethernet, ArrayOf(payload, "ethernet"))
    || ItemsRaise(reader, Wireless, ArrayOf(payload, "wireless_interfaces"))
    || ItemsRaise(reader, Wifi, ArrayOf(payload, "wifi_interfaces"))
  }

  /** The points of a heartbeat: ethernet, then wireless, then wifi, each in the order of its
      array. */
  method BuildInterfacePoints(reader: TextReader, payload: Entry) returns (r: Result<seq<Point>, BuildError>)
    ensures r.Failure? <==> PayloadRaises(reader, payload)
    ensures r.Success? ==>
              r.value == PointsOf(reader, Ethernet, ArrayOf(payload, "ethernet"))
                       + PointsOf(reader, Wireless, ArrayOf(payload, "wireless_interfaces"))
                       + PointsOf(reader, Wifi, ArrayOf(payload, "wifi_interfaces"))
  {
    var ethernet := BuildArray(reader, Ethernet, ArrayOf(payload, "ethernet"), []);
    if ethernet.Failure? {
      return ethernet;
    }
    var wireless := BuildArray(reader, Wireless, ArrayOf(payload, "wireless_interfaces"), ethernet.value);
    if wireless.Failure? {
      return wireless;
    }
    r := BuildArray(reader, Wifi, ArrayOf(payload, "wifi_interfaces"), wireless.value);
  }

  // ----- what the points are --------------------------------------------------------

  /** A field that is legal, with the value its entry gives it. */
  predicate Carries(reader: TextReader, entry: Entry, spec: Spec, field: PointField) {
    field.name == spec.name && Usable(reader, spec.shape, Get(entry, spec.name)) == Some(field.value)
  }

  predicate HasUsable(reader: TextReader, entry: Entry, spec: Spec) {
    Usable(reader, spec.shape, Get(entry, spec.name)).Some?
  }

  lemma FieldsExactly(reader: TextReader, entry: Entry, specs: seq<Spec>, field: PointField)
    ensures field in FieldsOf(reader, entry, specs) <==>
              exists i :: 0 <= i < |specs| && Carries(reader, entry, specs[i], field)
  {
    GatherExactly(specs, spec => FieldOf(reader, entry, spec), field);
    forall i | 0 <= i < |specs|
      ensures field in FieldOf(reader, entry, specs[i]) <==> Carries(reader, entry, specs[i], field)
    {
    }
  }

  /** A point is built exactly for an entry with a non-empty name and at least one usable field
      that is legal for its kind, and it carries exactly those fields. */
  lemma PointExactly(reader: TextReader, kind: Kind, entry: Entry)
    ensures var point := PointOf(reader, kind, entry);
            && (point.Some? <==>
                  && Get(entry, "name").Text? && Get(entry, "name").text != ""
                  && exists i :: 0 <= i < |Legal(kind)| && HasUsable(reader, entry, Legal(kind)[i]))
            && (point.Some? ==>
                  && point.value.interfaceName == Get(entry, "name").text && point.value.kind == kind
                  && point.value.fields != []
                  && forall field :: field in point.value.fields <==>
                       exists i :: 0 <= i < |Legal(kind)| && Carries(reader, entry, Legal(kind)[i], field))
  {
    var specs := Legal(kind);
    var fields := FieldsOf(reader, entry, specs);
    forall field ensures field in fields <==> exists i :: 0 <= i < |specs| && Carries(reader, entry, specs[i], field) {
      FieldsExactly(reader, entry, specs, field);
    }
    if i :| 0 <= i < |specs| && HasUsable(reader, entry, specs[i]) {
      var field := PointField(specs[i].name, Usable(reader, specs[i].shape, Get(entry, specs[i].name)).value);
      assert Carries(reader, entry, specs[i], field);
      assert field in fields;
    }
    if fields != [] {
      assert fields[0] in fields;
      var i :| 0 <= i < |specs| && Carries(reader, entry, specs[i], fields[0]);
      assert HasUsable(reader, entry, specs[i]);
    }
  }

  /** The points of an array are those of its entries, one after the other; an entry that is no
      dictionary has none, and what is no list counts as an empty one. */
  lemma PointsExactly(reader: TextReader, kind: Kind, a: seq<Value>, b: seq<Value>, item: Value)
    ensures PointsOf(reader, kind, []) == [] && PointsOf(reader, kind, a + b)
         == PointsOf(reader, kind, a) + PointsOf(reader, kind, b)
    ensures PointsOf(reader, kind, [item]) ==
              if item.Dict? && PointOf(reader, kind, item.entries).Some?
              then [PointOf(reader, kind, item.entries).value] else []
  {
    GatherConcat(a, b, item => ItemPoints(reader, kind, item));
    PointsNext(reader, kind, [item], 0);
    assert [item][..1] == [item] && [item][..0] == [];
  }

  lemma ArrayIsList(payload: Entry, key: string)
    ensures key in payload && payload[key].Items? ==> ArrayOf(payload, key) == payload[key].items
    ensures key !in payload || !payload[key].Items? ==> ArrayOf(payload, key) == []
  {
  }

  /** Truncation is towards zero. */
  lemma TruncatesTowardsZero(x: real)
    ensures x >= 0.0 ==> Truncate(x) as real <= x < Truncate(x) as real + 1.0
    ensures x <= 0.0 ==> Truncate(x) as real - 1.0 < x <= Truncate(x) as real
  {
  }

  /** How a value is read as an integer. */
  predicate ReadsAs(reader: TextReader, v: Value, n: int) {
    || v == Whole(n)
    || (v == Flag(true) && n == 1) || (v == Flag(false) && n == 0)
    || (v.Fraction? && v.value >= 0.0 && n as real <= v.value < n as real + 1.0)
    || (v.Fraction? && v.value <= 0.0 && n as real - 1.0 < v.value <= n as real)
    || (v.Text? && reader(v.text) == Some(n))
  }

  lemma ToIntExactly(reader: TextReader, v: Value, n: int)
    ensures ToInt(reader, v) == Number(n) <==> ReadsAs(reader, v, n)
    ensures ToInt(reader, v) == Overflow <==> v == Infinite
  {
    if v.Fraction? {
      TruncatesTowardsZero(v.value);
    }
  }

  /** What a point of each kind may carry: the counters, the link state, and what wireless and wifi
      add, each as the entry has it. */
  predicate LegalField(reader: TextReader, kind: Kind, entry: Entry, field: PointField) {
    var v := Get(entry, field.name);
    || (field.name in {"rx_bytes", "tx_bytes", "rx_packets", "tx_packets"}
        && field.value.IntField? && ReadsAs(reader, v, field.value.n))
    || (kind == Wireless && field.name == "frequency" && field.value.IntField? && ReadsAs(reader, v, field.value.n))
    || (kind == Ethernet && field.name == "running" && field.value.BoolField? && v == Flag(field.value.b))
    || (kind != Ethernet && field.name == "disabled" && field.value.BoolField? && v == Flag(field.value.b))
    || (kind == Wireless && field.name in {"ssid", "band", "channel_width", "tx_power", "mode"}
        && field.value.TextField? && field.value.t != "" && v == Text(field.value.t))
    || (kind == Wifi && field.name in {"ssid", "channel", "configuration"}
        && field.value.TextField? && field.value.t != "" && v == Text(field.value.t))
  }

  lemma SpecsExactly(names: seq<string>, shape: Shape, spec: Spec)
    ensures spec in Specs(names, shape) <==> spec.shape == shape && spec.name in names
  {
    if spec.shape == shape && spec.name in names {
      var i :| 0 <= i < |names| && names[i] == spec.name;
      assert Specs(names, shape)[i] == spec;
    }
  }

  lemma LegalSpecs(kind: Kind, spec: Spec)
    ensures spec in Legal(kind) <==>
              || (spec.shape == Counter && spec.name in COUNTERS)
              || (spec.shape == Switch && spec.name == LinkField(kind))
              || (kind == Wireless && spec.shape == Counter && spec.name in WIRELESS_NUMBERS)
              || (kind == Wireless && spec.shape == Words && spec.name in WIRELESS_WORDS)
              || (kind == Wifi && spec.shape == Words && spec.name in WIFI_WORDS)
  {
    hide Specs;
    SpecsExactly(COUNTERS, Counter, spec);
    SpecsExactly(WIRELESS_NUMBERS, Counter, spec);
    SpecsExactly(WIRELESS_WORDS, Words, spec);
    SpecsExactly(WIFI_WORDS, Words, spec);
  }

  lemma CarriesExactly(reader: TextReader, entry: Entry, spec: Spec, field: PointField)
    ensures Carries(reader, entry, spec, field) <==>
              && field.name == spec.name
              && var v := Get(entry, field.name);
              match spec.shape
              case Counter => field.value.IntField? && ReadsAs(reader, v, field.value.n)
              case Switch => field.value.BoolField? && v == Flag(field.value.b)
              case Words => field.value.TextField? && field.value.t != "" && v == Text(field.value.t)
  {
    if field.value.IntField? {
      ToIntExactly(reader, Get(entry, field.name), field.value.n);
    }
  }

  lemma NamesAre(name: string)
    ensures name in COUNTERS <==> name in {"rx_bytes", "tx_bytes", "rx_packets", "tx_packets"}
    ensures name in WIRELESS_NUMBERS <==> name == "frequency"
    ensures name in WIRELESS_WORDS <==> name in {"ssid", "band", "channel_width", "tx_power", "mode"}
    ensures name in WIFI_WORDS <==> name in {"ssid", "channel", "configuration"}
  {
    var words := WIRELESS_WORDS;
    assert words == [words[0], words[1], words[2], words[3], words[4]];
  }

  /** A field is legal exactly through one of the three shapes. */
  lemma LegalByShape(reader: TextReader, kind: Kind, entry: Entry, field: PointField, spec: Spec)
    requires spec.name == field.name
    ensures spec in Legal(kind) && Carries(reader, entry, spec, field) ==> LegalField(reader, kind, entry, field)
    ensures LegalField(reader, kind, entry, field) && Fits(spec.shape, field.value) ==>
              spec in Legal(kind) && Carries(reader, entry, spec, field)
  {
    hide Legal, ReadsAs, Carries, COUNTERS, WIRELESS_NUMBERS, WIRELESS_WORDS, WIFI_WORDS;
    LegalSpecs(kind, spec);
    NamesAre(field.name);
    CarriesExactly(reader, entry, spec, field);
  }

  predicate Fits(shape: Shape, value: FieldValue) {
    match shape
    case Counter => value.IntField?
    case Switch => value.BoolField?
    case Words => value.TextField?
  }

  lemma CarriedExactly(reader: TextReader, kind: Kind, entry: Entry, field: PointField)
    ensures (exists i :: 0 <= i < |Legal(kind)| && Carries(reader, entry, Legal(kind)[i], field)) <==>
              LegalField(reader, kind, entry, field)
  {
    hide Legal, Carries, LegalField;
    var shape := if field.value.IntField? then Counter else if field.value.BoolField? then Switch else Words;
    LegalByShape(reader, kind, entry, field, Spec(field.name, shape));
    if i :| 0 <= i < |Legal(kind)| && Carries(reader, entry, Legal(kind)[i], field) {
      CarriesExactly(reader, entry, Legal(kind)[i], field);
      LegalByShape(reader, kind, entry, field, Legal(kind)[i]);
    }
    if LegalField(reader, kind, entry, field) {
      var i :| 0 <= i < |Legal(kind)| && Legal(kind)[i] == Spec(field.name, shape);
      assert Carries(reader, entry, Legal(kind)[i], field);
    }
  }

  /** An entry that builds a point carries a field exactly when it is legal for its kind, by name and
      by value. */
  lemma PointCarriesExactly(reader: TextReader, kind: Kind, entry: Entry, field: PointField)
    requires PointOf(reader, kind, entry).Some?
    ensures field in PointOf(reader, kind, entry).value.fields <==> LegalField(reader, kind, entry, field)
  {
    hide PointOf, Carries, Legal, LegalField;
    PointExactly(reader, kind, entry);
    CarriedExactly(reader, kind, entry, field);
  }

  /** The builder promises to skip a counter that is not a number. That holds of everything except
      an infinite float, whose conversion raises an error that is not caught: the build fails
      exactly when a named entry has one in a numeric field of its kind. */
  lemma FailsExactlyOnInfinity(reader: TextReader, kind: Kind, entry: Entry)
    ensures EntryRaises(reader, kind, entry) <==>
              && Get(entry, "name").Text? && Get(entry, "name").text != ""
              && exists i :: 0 <= i < |Legal(kind)|
                   && Legal(kind)[i].shape == Counter && Get(entry, Legal(kind)[i].name) == Infinite
  {
    forall i | 0 <= i < |Legal(kind)|
      ensures Raises(reader, entry, Legal(kind)[i]) <==>
                Legal(kind)[i].shape == Counter && Get(entry, Legal(kind)[i].name) == Infinite
    {
    }
  }

  /** One such entry. */
  lemma InfiniteCounterFails(reader: TextReader)
    ensures EntryRaises(reader, Ethernet, map["name" := Text("ether1"), "rx_bytes" := Infinite])
  {
    var entry := map["name" := Text("ether1"), "rx_bytes" := Infinite];
    assert |"name"| != |"rx_bytes"|;
    assert Legal(Ethernet)[0] == Spec("rx_bytes", Counter);
    FailsExactlyOnInfinity(reader, Ethernet, entry);
  }

  // ----- uptime of a heartbeat ------------------------------------------------------

  /** Python's truth of a value. */
  predicate Truthy(v: Value) {
    match v
    case Null => false
    case Flag(b) => b
    case Whole(n) => n != 0
    case Fraction(x) => x != 0.0
    case Infinite => true
    case NotANumber => true
    case Text(t) => t != ""
    case Items(items) => items != []
    case Dict(entries) => entries != map[]
  }

  lemma FalseValues(v: Value)
    ensures !Truthy(v) <==> v in {Null, Flag(false), Whole(0), Fraction(0.0), Text(""), Items([]), Dict(map[])}
  {
  }

  function NestedUptime(payload: Entry): Value {
    var system := Get(payload, "system");
    if system.Dict? then Get(system.entries, "uptime") else Null
  }

  lemma NestedIsIn(payload: Entry, system: Entry)
    requires "system" in payload && payload["system"] == Dict(system)
    ensures NestedUptime(payload) == if "uptime" in system then system["uptime"] else Null
  {
  }

  /** The uptime text: the nested one if there is one, else the flat one. `str` renders a value. */
  function UptimeText(str: Value -> string, payload: Entry): string {
    if Truthy(NestedUptime(payload)) then str(NestedUptime(payload))
    else if Truthy(Get(payload, "uptime")) then str(Get(payload, "uptime"))
    else ""
  }

  /** A router that reports its uptime in the canonical form is read exactly, whether it sends the
      nested shape (whatever the flat field holds) or, without a nested one, the flat shape. */
  lemma HeartbeatUptime(str: Value -> string, payload: Entry, n: nat, units: seq<(char, nat)>)
    requires forall t: string :: str(Text(t)) == t
    requires ValidUnits(units)
    requires NestedUptime(payload) == Text(Render(n, units))
          || (!Truthy(NestedUptime(payload)) && Get(payload, "uptime") == Text(Render(n, units)))
    ensures Uptime.Uptime(UptimeText(str, payload), units) == n
  {
    ParseOfRender(n, units);
    UptimeTextIs(str, payload, Render(n, units));
  }

  lemma UptimeTextIs(str: Value -> string, payload: Entry, text: string)
    requires text != "" && str(Text(text)) == text
    requires NestedUptime(payload) == Text(text)
          || (!Truthy(NestedUptime(payload)) && Get(payload, "uptime") == Text(text))
    ensures UptimeText(str, payload) == text
  {
  }
}

/** Vendor dictionaries as values: catalogs, the field rules that combine them, and what one line of
    dictionary text does to a catalog, defined by linear scans (configs/vendor_dictionary.go,
    configs/vendor_dictionary_loader.go). */
module Dictionary {
  import opened Text
  import opened Sequences
  import opened Wrappers

  datatype Value = Value(attribute: string, name: string, value: string)

  datatype Attribute = Attribute(name: string, number: int, oid: string, kind: string,
                                 options: seq<string>, values: seq<Value>)

  datatype Vendor = Vendor(name: string, id: int, options: seq<string>, attributes: seq<Attribute>)

  /** What a parser warning complains about. */
  datatype Issue =
    | VendorFieldsMissing | VendorIDInvalid | BeginNameMissing | AttributeFieldsMissing | AttributeNumberInvalid |
    ValueFieldsMissing

  datatype Warning = Warning(line: nat, issue: Issue)

  datatype Catalog = Catalog(source: string, vendors: seq<Vendor>, values: seq<Value>, warnings: seq<Warning>)

  /** Reads an integer in any of the forms Go's `strconv.ParseInt(text, 0, 64)` accepts. */
  type NumberReader = string -> Option<int>

  // ----- options and values

  /** One option: at most one trailing comma removed, then trimmed. */
  function NormalizeOption(option: string): string {
    Trim(TrimComma(option))
  }

  function NormalizeOptions(options: seq<string>): seq<string> {
    if options == [] then []
    else
      var option, rest := NormalizeOption(options[0]), NormalizeOptions(options[1..]);
      (if option == "" then [] else [option]) + rest
  }

  /** `existing` followed by the elements of `additions` whose key is new. */
  function Extend<T(==), K(==)>(key: T -> K, existing: seq<T>, additions: seq<T>): seq<T> {
    existing + Distinct(key, Keys(key, existing), additions)
  }

  function MergeOptions(existing: seq<string>, additions: seq<string>): seq<string> {
    Extend(Lower, existing, NormalizeOptions(additions))
  }

  /** The NUL-joined key of a value, as a tuple. */
  function ValueKey(v: Value): (string, string, string) {
    (Lower(v.attribute), Lower(v.name), Lower(v.value))
  }

  function MergeValues(existing: seq<Value>, additions: seq<Value>): seq<Value> {
    Extend(ValueKey, existing, additions)
  }

  /** The loop with a seen-map behind `mergeDictionaryOptions` and `mergeDictionaryValues`. */
  method AppendDistinct<T(==), K(==)>(key: T -> K, existing: seq<T>, additions: seq<T>) returns (out: seq<T>)
    ensures out == Extend(key, existing, additions)
  {
    out := existing;
    var seen := Keys(key, existing);
    assert additions[0..] == additions;
    for i := 0 to |additions|
      invariant out + Distinct(key, seen, additions[i..]) == Extend(key, existing, additions)
    {
      var x := additions[i];
      ghost var later := additions[i + 1..];
      assert additions[i..] == [x] + later;
      DistinctCons(key, seen, x, later);
      if key(x) !in seen {
        ghost var rest := Distinct(key, seen + {key(x)}, later);
        assert out + ([x] + rest) == (out + [x]) + rest;
        seen := seen + {key(x)};
        out := out + [x];
      }
    }
    assert additions[|additions|..] == [];
  }

  lemma {:induction false} NormalizeConcat(a: seq<string>, b: seq<string>)
    ensures NormalizeOptions(a + b) == NormalizeOptions(a) + NormalizeOptions(b)
  {
    if a == [] {
      assert a + b == b;
    } else {
      assert (a + b)[1..] == a[1..] + b;
      NormalizeConcat(a[1..], b);
    }
  }

  /** `normalizedDictionaryOptions`. */
  method NormalizedOptions(options: seq<string>) returns (out: seq<string>)
    ensures out == NormalizeOptions(options)
  {
    out := [];
    for i := 0 to |options|
      invariant out == NormalizeOptions(options[..i])
    {
      assert options[..i + 1] == options[..i] + [options[i]];
      NormalizeConcat(options[..i], [options[i]]);
      var value := NormalizeOption(options[i]);
      if value != "" {
        out := out + [value];
      }
    }
    assert options[..|options|] == options;
  }

  // ----- vendors

  /** Position of the first vendor whose folded name is `key`; the number of vendors if there is none. */
  function VendorIndex(vendors: seq<Vendor>, key: string): (i: nat)
    ensures i <= |vendors|
    ensures i < |vendors| ==> Lower(vendors[i].name) == key
    ensures forall j :: 0 <= j < i ==> Lower(vendors[j].name) != key
  {
    if vendors == [] || Lower(vendors[0].name) == key then 0 else 1 + VendorIndex(vendors[1..], key)
  }

  ghost predicate DistinctNames(vendors: seq<Vendor>) {
    forall i, j :: 0 <= i < j < |vendors| ==> Lower(vendors[i].name) != Lower(vendors[j].name)
  }

  /** `upsertVendor` on values: the last positive ID wins, options accumulate, names are kept as first seen. */
  function Upsert(vendors: seq<Vendor>, name: string, id: int, options: seq<string>): seq<Vendor> {
    if Blank(name) then vendors
    else
      var i := VendorIndex(vendors, Lower(Trim(name)));
      if i < |vendors| then
        var v := vendors[i];
        vendors[i := v.(id := if id > 0 then id else v.id, options := MergeOptions(v.options, options))]
      else
        vendors + [Vendor(Trim(name), id, NormalizeOptions(options), [])]
  }

  // ----- one line of dictionary text

  /** What the parser has built after some lines. */
  datatype Parse = Parse(vendors: seq<Vendor>, values: seq<Value>, warnings: seq<Warning>, active: string)

  predicate AllDigits(s: string) {
    forall c <- s :: IsDigit(c)
  }

  /** `validDictionaryOID`: dotted numbers, at least two of them unless the text starts with a dot. */
  predicate ValidOID(text: string) {
    var value := Trim(text);
    var partial := value != "" && value[0] == '.';
    var parts := Split(if partial then value[1..] else value, '.');
    && (partial || |parts| >= 2)
    && forall part <- parts :: part != "" && AllDigits(part)
  }

  /** A positive number, or else an OID. */
  function ParseAttributeNumber(read: NumberReader, text: string): Option<(int, string)> {
    var number := read(Trim(text));
    if number.Some? && number.value > 0 then Some((number.value, ""))
    else if ValidOID(Trim(text)) then Some((0, Trim(text)))
    else None
  }

  /** The fields behind the first occurrence of `needle` that is not the last field. */
  function FieldsAfter(fields: seq<string>, needle: string): seq<string> {
    if fields == [] then []
    else if fields[0] == needle && |fields| > 1 then fields[1..]
    else FieldsAfter(fields[1..], needle)
  }

  /** The text before the first dot, if there is one. */
  function DotPrefix(s: string): Option<string> {
    if s == [] then None
    else if s[0] == '.' then Some("")
    else match DotPrefix(s[1..]) case None => None case Some(p) => Some([s[0]] + p)
  }

  /** The scan over the trailing fields for `vendor=` or for the name of a known vendor. */
  function ScanFields(all: seq<string>, fields: seq<string>, options: seq<string>, vendors: seq<Vendor>)
    : (string, seq<string>)
    decreases |fields|
  {
    if fields == [] then ("", options)
    else
      var trimmed := Trim(TrimComma(fields[0]));
      if trimmed == "" then ScanFields(all, fields[1..], options, vendors)
      else if "vendor=" <= Lower(trimmed) then (Trim(trimmed[7..]), options + FieldsAfter(all, fields[0]))
      else
        var i := VendorIndex(vendors, Lower(trimmed));
        if i < |vendors| then (vendors[i].name, options + FieldsAfter(all, fields[0]))
        else ScanFields(all, fields[1..], options + [trimmed], vendors)
  }

  /** `resolveAttributeVendor` on values. */
  function ResolveVendor(attribute: string, active: string, fields: seq<string>, vendors: seq<Vendor>)
    : (string, seq<string>)
  {
    if !Blank(active) then (Trim(active), fields)
    else
      var prefix := DotPrefix(Trim(attribute));
      if prefix.Some? && VendorIndex(vendors, Lower(prefix.value)) < |vendors|
      then (vendors[VendorIndex(vendors, Lower(prefix.value))].name, fields)
      else ScanFields(fields, fields, [], vendors)
  }

  function AddAttribute(vendors: seq<Vendor>, i: nat, attribute: Attribute): seq<Vendor>
    requires i < |vendors|
  {
    vendors[i := vendors[i].(attributes := vendors[i].attributes + [attribute])]
  }

  /** A value joins every attribute of its name. */
  function AddValueToAttributes(attributes: seq<Attribute>, value: Value): (r: seq<Attribute>)
    ensures |r| == |attributes|
    ensures forall a :: 0 <= a < |r| ==> r[a] == AddValueTo(attributes[a], value)
  {
    if attributes == [] then []
    else [AddValueTo(attributes[0], value)] + AddValueToAttributes(attributes[1..], value)
  }

  function AddValueTo(attribute: Attribute, value: Value): Attribute {
    if Lower(attribute.name) == Lower(Trim(value.attribute))
    then attribute.(values := attribute.values + [value]) else attribute
  }

  function AddValue(vendors: seq<Vendor>, value: Value): (r: seq<Vendor>)
    ensures |r| == |vendors|
    ensures forall v :: 0 <= v < |r| ==>
            r[v] == vendors[v].(attributes := AddValueToAttributes(vendors[v].attributes, value))
  {
    if vendors == [] then []
    else [vendors[0].(attributes := AddValueToAttributes(vendors[0].attributes, value))] + AddValue(vendors[1..], value)
  }

  /** Some attribute of the catalog has the folded name `key`. */
  ghost predicate Declares(vendors: seq<Vendor>, key: string) {
    exists v, a :: 0 <= v < |vendors| && 0 <= a < |vendors[v].attributes| && Lower(vendors[v].attributes[a].name) == key
  }

  /** The value a line declares, when it is a well-formed VALUE line. */
  function ValueOf(line: string): Option<Value> {
    var fields := Fields(StripComment(line));
    if |fields| >= 4 && EqualFold(fields[0], "VALUE") then Some(Value(fields[1], fields[2], fields[3])) else None
  }

  function Warned(st: Parse, n: nat, issue: Issue): Parse {
    st.(warnings := st.warnings + [Warning(n, issue)])
  }

  function ParseVendorLine(read: NumberReader, st: Parse, n: nat, fields: seq<string>): Parse {
    if |fields| < 3 then Warned(st, n, VendorFieldsMissing)
    else
      var id := read(Trim(fields[2]));
      if id.None? || id.value < 1 then Warned(st, n, VendorIDInvalid)
      else st.(vendors := Upsert(st.vendors, fields[1], id.value, fields[3..]))
  }

  function ParseBeginLine(st: Parse, n: nat, fields: seq<string>): Parse {
    if |fields| < 2 then Warned(st, n, BeginNameMissing)
    else st.(active := fields[1], vendors := Upsert(st.vendors, fields[1], 0, fields[2..]))
  }

  function ParseAttributeLine(read: NumberReader, st: Parse, n: nat, fields: seq<string>): Parse {
    if |fields| < 4 then Warned(st, n, AttributeFieldsMissing)
    else
      var number := ParseAttributeNumber(read, fields[2]);
      if number.None? then Warned(st, n, AttributeNumberInvalid)
      else
        var (vendor, options) := ResolveVendor(fields[1], st.active, fields[4..], st.vendors);
        if vendor == "" then st
        else
          var attribute := Attribute(fields[1], number.value.0, number.value.1, Lower(fields[3]),
                                     NormalizeOptions(options), []);
          var vendors := Upsert(st.vendors, vendor, 0, []);
          var i := VendorIndex(vendors, Lower(Trim(vendor)));
          if i < |vendors| then st.(vendors := AddAttribute(vendors, i, attribute)) else st
  }

  ghost function ParseValueLine(st: Parse, n: nat, fields: seq<string>): Parse {
    if |fields| < 4 then Warned(st, n, ValueFieldsMissing)
    else
      var value := Value(fields[1], fields[2], fields[3]);
      if Declares(st.vendors, Lower(Trim(value.attribute))) then st.(vendors := AddValue(st.vendors, value))
      else st.(values := st.values + [value])
  }

  /** Line `n` of a dictionary text. */
  ghost function ParseLine(read: NumberReader, st: Parse, n: nat, line: string): Parse {
    var fields := Fields(StripComment(line));
    if fields == [] then st
    else if EqualFold(fields[0], "VENDOR") then ParseVendorLine(read, st, n, fields)
    else if EqualFold(fields[0], "BEGIN-VENDOR") then ParseBeginLine(st, n, fields)
    else if EqualFold(fields[0], "END-VENDOR") then st.(active := "")
    else if EqualFold(fields[0], "ATTRIBUTE") then ParseAttributeLine(read, st, n, fields)
    else if EqualFold(fields[0], "VALUE") then ParseValueLine(st, n, fields)
    else st
  }

  /** Lines `n + 1`, `n + 2`, ... of a dictionary text. */
  ghost function ParseLines(read: NumberReader, st: Parse, n: nat, lines: seq<string>): Parse
    decreases |lines|
  {
    if lines == [] then st else ParseLines(read, ParseLine(read, st, n + 1, lines[0]), n + 1, lines[1..])
  }

  const EMPTY_PARSE := Parse([], [], [], "")

  /** `ParseVendorDictionaryCatalog` by linear scans. */
  ghost function ParseCatalog(read: NumberReader, source: string, text: string): Catalog {
    var st := ParseLines(read, EMPTY_PARSE, 0, Split(text, '\n'));
    Catalog(Trim(source), st.vendors, st.values, st.warnings)
  }
}

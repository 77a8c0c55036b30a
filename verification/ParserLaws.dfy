/** What every dictionary text guarantees about the parsed catalog: vendor names stay distinct, every
    attribute has a number or an OID, and each attribute ends up with exactly the VALUE lines of its
    name that come after it. */
module ParserLaws {
  import opened Text
  import opened Dictionary
  import opened DictionaryParser

  /** What the intake and the runtime rely on: a positive number and no OID, or a valid OID and no number. */
  predicate NumberOrOID(attribute: Attribute) {
    || (attribute.number > 0 && attribute.oid == "")
    || (attribute.number == 0 && ValidOID(attribute.oid) && CleanEnds(IsSpace, attribute.oid))
  }

  ghost predicate WellFormed(vendors: seq<Vendor>) {
    && DistinctNames(vendors) && NamesTrimmed(vendors)
    && forall v, a :: 0 <= v < |vendors| && 0 <= a < |vendors[v].attributes| ==>
         IsWord(vendors[v].attributes[a].name) && NumberOrOID(vendors[v].attributes[a])
  }

  lemma {:induction false} UpsertWellFormed(vendors: seq<Vendor>, name: string, id: int, options: seq<string>)
    requires WellFormed(vendors)
    ensures WellFormed(Upsert(vendors, name, id, options))
  {
    TrimTrim(name);
    if !Blank(name) {
      var i := VendorIndex(vendors, Lower(Trim(name)));
      var after := Upsert(vendors, name, id, options);
      if i < |vendors| {
        UpdatedWellFormed(vendors, after);
      } else {
        AppendedWellFormed(vendors, Vendor(Trim(name), id, NormalizeOptions(options), []));
      }
    }
  }

  lemma {:induction false} UpdatedWellFormed(vendors: seq<Vendor>, after: seq<Vendor>)
    requires WellFormed(vendors) && |after| == |vendors|
    requires forall j :: 0 <= j < |after| ==>
             after[j].name == vendors[j].name && after[j].attributes == vendors[j].attributes
    ensures WellFormed(after)
  {
  }

  lemma {:induction false} AppendedWellFormed(vendors: seq<Vendor>, v: Vendor)
    requires WellFormed(vendors) && v.name != "" && CleanEnds(IsSpace, v.name) && v.attributes == []
    requires forall j :: 0 <= j < |vendors| ==> Lower(vendors[j].name) != Lower(v.name)
    ensures WellFormed(vendors + [v])
  {
    assert forall j :: 0 <= j < |vendors| ==> (vendors + [v])[j] == vendors[j];
  }

  lemma {:induction false} AddValueWellFormed(vendors: seq<Vendor>, value: Value)
    requires WellFormed(vendors)
    ensures WellFormed(AddValue(vendors, value))
  {
    var after := AddValue(vendors, value);
    assert forall v :: 0 <= v < |after| ==> after[v].name == vendors[v].name;
  }

  lemma {:induction false} AddAttributeWellFormed(vendors: seq<Vendor>, i: nat, attribute: Attribute)
    requires WellFormed(vendors) && i < |vendors| && IsWord(attribute.name) && NumberOrOID(attribute)
    ensures WellFormed(AddAttribute(vendors, i, attribute))
  {
    var after := AddAttribute(vendors, i, attribute);
    assert forall j :: 0 <= j < |after| ==> after[j].name == vendors[j].name;
  }

  lemma {:induction false} NumberedAttribute(read: NumberReader, text: string, attribute: Attribute)
    requires var number := ParseAttributeNumber(read, text);
             number.Some? && attribute.number == number.value.0 && attribute.oid == number.value.1
    ensures NumberOrOID(attribute)
  {
    TrimTrim(text);
  }

  lemma {:induction false} AttributeLineWellFormed(read: NumberReader, st: Parse, n: nat, fields: seq<string>)
    requires WellFormed(st.vendors) && (forall f <- fields :: IsWord(f))
    ensures WellFormed(ParseAttributeLine(read, st, n, fields).vendors)
  {
    if |fields| >= 4 {
      var number := ParseAttributeNumber(read, fields[2]);
      if number.Some? {
        var (vendor, options) := ResolveVendor(fields[1], st.active, fields[4..], st.vendors);
        UpsertWellFormed(st.vendors, vendor, 0, []);
        assert fields[1] in fields;
        var attribute := Attribute(fields[1], number.value.0, number.value.1, Lower(fields[3]),
                                   NormalizeOptions(options), []);
        NumberedAttribute(read, fields[2], attribute);
        var vendors := Upsert(st.vendors, vendor, 0, []);
        var i := VendorIndex(vendors, Lower(Trim(vendor)));
        if i < |vendors| {
          AddAttributeWellFormed(vendors, i, attribute);
        }
      }
    }
  }

  lemma {:induction false} LineWellFormed(read: NumberReader, st: Parse, n: nat, line: string)
    requires WellFormed(st.vendors)
    ensures WellFormed(ParseLine(read, st, n, line).vendors)
  {
    var fields := Fields(StripComment(line));
    FieldsAreWords(StripComment(line));
    if fields == [] {
    } else if EqualFold(fields[0], "VENDOR") {
      if |fields| >= 3 && read(Trim(fields[2])).Some? {
        UpsertWellFormed(st.vendors, fields[1], read(Trim(fields[2])).value, fields[3..]);
      }
    } else if EqualFold(fields[0], "BEGIN-VENDOR") {
      if |fields| >= 2 {
        UpsertWellFormed(st.vendors, fields[1], 0, fields[2..]);
      }
    } else if EqualFold(fields[0], "END-VENDOR") {
    } else if EqualFold(fields[0], "ATTRIBUTE") {
      AttributeLineWellFormed(read, st, n, fields);
    } else if EqualFold(fields[0], "VALUE") && |fields| >= 4 {
      AddValueWellFormed(st.vendors, Value(fields[1], fields[2], fields[3]));
    }
  }

  /** Every parsed catalog is well formed, whatever the text. */
  lemma {:induction false} LinesWellFormed(read: NumberReader, st: Parse, n: nat, lines: seq<string>)
    requires WellFormed(st.vendors)
    ensures WellFormed(ParseLines(read, st, n, lines).vendors)
    decreases |lines|
  {
    if lines != [] {
      LineWellFormed(read, st, n + 1, lines[0]);
      LinesWellFormed(read, ParseLine(read, st, n + 1, lines[0]), n + 1, lines[1..]);
    }
  }

  lemma {:induction false} CatalogWellFormed(read: NumberReader, source: string, text: string)
    ensures WellFormed(ParseCatalog(read, source, text).vendors)
  {
    LinesWellFormed(read, EMPTY_PARSE, 0, Split(text, '\n'));
  }

  // ----- where values go

  ghost predicate Has(vendors: seq<Vendor>, l: Location) {
    l.vendor < |vendors| && l.attribute < |vendors[l.vendor].attributes|
  }

  function AttributeAt(vendors: seq<Vendor>, l: Location): Attribute
    requires Has(vendors, l)
  {
    vendors[l.vendor].attributes[l.attribute]
  }

  /** The values that the VALUE lines among `lines` give to attributes with the folded name `key`. */
  function ValuesNamed(lines: seq<string>, key: string): seq<Value> {
    if lines == [] then []
    else
      var value := ValueOf(lines[0]);
      (if value.Some? && Lower(Trim(value.value.attribute)) == key then [value.value]
       else []) + ValuesNamed(lines[1..], key)
  }

  /** Attributes stay where they are, keep everything but their values, and new ones start without values. */
  ghost predicate Grows(before: seq<Vendor>, after: seq<Vendor>, line: string) {
    var lines := [line];
    && (forall l :: Has(before, l) ==> Has(after, l) && Collected(AttributeAt(before, l), AttributeAt(after, l), lines))
    && (forall l :: Has(after, l) && !Has(before, l) ==> AttributeAt(after, l).values == [])
  }

  /** An attribute before and after some lines. */
  ghost predicate Collected(was: Attribute, now: Attribute, lines: seq<string>) {
    now == was.(values := was.values + ValuesNamed(lines, Lower(was.name)))
  }

  lemma {:induction false} ValuesNamedCons(line: string, rest: seq<string>, key: string)
    ensures ValuesNamed([line] + rest, key) == ValuesNamed([line], key) + ValuesNamed(rest, key)
  {
    var value := ValueOf(line);
    var own := if value.Some? && Lower(Trim(value.value.attribute)) == key then [value.value] else [];
    assert ([line] + rest)[0] == line && ([line] + rest)[1..] == rest;
    assert [line][1..] == [] && ValuesNamed([], key) == [];
    EmptyExtension(own);
    assert ValuesNamed([line], key) == own;
  }

  lemma {:induction false} CollectedThen(was: Attribute, mid: Attribute, now: Attribute, line: string,
                                         rest: seq<string>)
    requires Collected(was, mid, [line]) && Collected(mid, now, rest)
    ensures Collected(was, now, [line] + rest)
  {
    var first, later := ValuesNamed([line], Lower(was.name)), ValuesNamed(rest, Lower(was.name));
    ValuesNamedCons(line, rest, Lower(was.name));
    assert was.values + (first + later) == (was.values + first) + later;
  }

  lemma {:induction false} UpsertKeepsAttributes(vendors: seq<Vendor>, name: string, id: int, options: seq<string>)
    ensures var after := Upsert(vendors, name, id, options);
            && |vendors| <= |after|
            && (forall v :: 0 <= v < |vendors| ==> after[v].attributes == vendors[v].attributes)
            && (forall v :: |vendors| <= v < |after| ==> after[v].attributes == [])
  {
  }

  lemma {:induction false} NoValueLine(line: string)
    requires ValueOf(line).None?
    ensures forall key :: ValuesNamed([line], key) == []
  {
  }

  lemma {:induction false} ValueLine(line: string)
    requires ValueOf(line).Some?
    ensures forall key :: ValuesNamed([line], key) ==
                          if Lower(Trim(ValueOf(line).value.attribute)) == key then [ValueOf(line).value] else []
  {
  }

  lemma {:induction false} EmptyExtension(values: seq<Value>)
    ensures values + [] == values
  {
  }

  lemma {:induction false} GrowsWithoutValues(before: seq<Vendor>, after: seq<Vendor>, line: string)
    requires ValueOf(line).None?
    requires forall l :: Has(before, l) ==> Has(after, l) && AttributeAt(after, l) == AttributeAt(before, l)
    requires forall l :: Has(after, l) && !Has(before, l) ==> AttributeAt(after, l).values == []
    ensures Grows(before, after, line)
  {
    NoValueLine(line);
    forall l | Has(before, l)
      ensures var was := AttributeAt(before, l); Collected(was, AttributeAt(after, l), [line])
    {
      EmptyExtension(AttributeAt(before, l).values);
    }
  }

  lemma {:induction false} AttributeLineGrows(read: NumberReader, st: Parse, n: nat, fields: seq<string>, line: string)
    requires ValueOf(line).None?
    ensures Grows(st.vendors, ParseAttributeLine(read, st, n, fields).vendors, line)
  {
    if |fields| < 4 || ParseAttributeNumber(read, fields[2]).None? {
      GrowsWithoutValues(st.vendors, st.vendors, line);
    } else {
      var (vendor, options) := ResolveVendor(fields[1], st.active, fields[4..], st.vendors);
      var number := ParseAttributeNumber(read, fields[2]).value;
      var attribute := Attribute(fields[1], number.0, number.1, Lower(fields[3]), NormalizeOptions(options), []);
      var vendors := Upsert(st.vendors, vendor, 0, []);
      var i := VendorIndex(vendors, Lower(Trim(vendor)));
      if vendor == "" || i == |vendors| {
        GrowsWithoutValues(st.vendors, st.vendors, line);
      } else {
        AddedGrows(st.vendors, vendor, i, attribute, line);
      }
    }
  }

  lemma {:induction false} AddedGrows(before: seq<Vendor>, name: string, i: nat, attribute: Attribute, line: string)
    requires ValueOf(line).None? && i < |Upsert(before, name, 0, [])| && attribute.values == []
    ensures Grows(before, AddAttribute(Upsert(before, name, 0, []), i, attribute), line)
  {
    UpsertKeepsAttributes(before, name, 0, []);
    GrowsWithoutValues(before, AddAttribute(Upsert(before, name, 0, []), i, attribute), line);
  }

  lemma {:induction false} ValueLineGrows(st: Parse, n: nat, line: string)
    requires ValueOf(line).Some?
    ensures Grows(st.vendors, ParseValueLine(st, n, Fields(StripComment(line))).vendors, line)
  {
    var value := ValueOf(line).value;
    var key := Lower(Trim(value.attribute));
    var after := ParseValueLine(st, n, Fields(StripComment(line))).vendors;
    ValueLine(line);
    forall l | Has(st.vendors, l)
      ensures Has(after, l) && Collected(AttributeAt(st.vendors, l), AttributeAt(after, l), [line])
    {
      var was := AttributeAt(st.vendors, l);
      if !Declares(st.vendors, key) {
        assert Lower(was.name) != key;
      }
      if Lower(was.name) != key {
        EmptyExtension(was.values);
      }
    }
  }

  lemma {:induction false} VendorLineGrows(read: NumberReader, st: Parse, n: nat, fields: seq<string>, line: string)
    requires ValueOf(line).None?
    ensures Grows(st.vendors, ParseVendorLine(read, st, n, fields).vendors, line)
  {
    if |fields| >= 3 && read(Trim(fields[2])).Some? {
      UpsertKeepsAttributes(st.vendors, fields[1], read(Trim(fields[2])).value, fields[3..]);
    }
    GrowsWithoutValues(st.vendors, ParseVendorLine(read, st, n, fields).vendors, line);
  }

  lemma {:induction false} BeginLineGrows(st: Parse, n: nat, fields: seq<string>, line: string)
    requires ValueOf(line).None?
    ensures Grows(st.vendors, ParseBeginLine(st, n, fields).vendors, line)
  {
    if |fields| >= 2 {
      UpsertKeepsAttributes(st.vendors, fields[1], 0, fields[2..]);
    }
    GrowsWithoutValues(st.vendors, ParseBeginLine(st, n, fields).vendors, line);
  }

  /** One line, whatever it is. */
  lemma {:induction false} LineGrows(read: NumberReader, st: Parse, n: nat, line: string)
    ensures Grows(st.vendors, ParseLine(read, st, n, line).vendors, line)
  {
    var fields := Fields(StripComment(line));
    var after := ParseLine(read, st, n, line).vendors;
    if fields == [] {
      GrowsWithoutValues(st.vendors, after, line);
    } else if EqualFold(fields[0], "VENDOR") {
      VendorLineGrows(read, st, n, fields, line);
    } else if EqualFold(fields[0], "BEGIN-VENDOR") {
      BeginLineGrows(st, n, fields, line);
    } else if EqualFold(fields[0], "ATTRIBUTE") {
      AttributeLineGrows(read, st, n, fields, line);
    } else if ValueOf(line).Some? {
      ValueLineGrows(st, n, line);
    } else {
      GrowsWithoutValues(st.vendors, after, line);
    }
  }

  /** From any point of any run on, an attribute keeps its place and collects exactly the later VALUE
      lines of its name, in order. */
  lemma {:induction false} AttributeCollects(read: NumberReader, st: Parse, n: nat, lines: seq<string>, l: Location)
    requires Has(st.vendors, l)
    ensures var after := ParseLines(read, st, n, lines).vendors;
            Has(after, l) && Collected(AttributeAt(st.vendors, l), AttributeAt(after, l), lines)
    decreases |lines|
  {
    if lines == [] {
      EmptyExtension(AttributeAt(st.vendors, l).values);
    } else {
      var mid := ParseLine(read, st, n + 1, lines[0]);
      LineGrows(read, st, n + 1, lines[0]);
      AttributeCollects(read, mid, n + 1, lines[1..], l);
      var after := ParseLines(read, st, n, lines).vendors;
      CollectedThen(AttributeAt(st.vendors, l), AttributeAt(mid.vendors, l), AttributeAt(after, l), lines[0],
                    lines[1..]);
      assert [lines[0]] + lines[1..] == lines;
    }
  }

  lemma {:induction false} ParseLinesSplit(read: NumberReader, st: Parse, n: nat, a: seq<string>, b: seq<string>)
    ensures ParseLines(read, st, n, a + b) == ParseLines(read, ParseLines(read, st, n, a), n + |a|, b)
    decreases |a|
  {
    if a == [] {
      assert a + b == b;
    } else {
      assert (a + b)[0] == a[0] && (a + b)[1..] == a[1..] + b;
      ParseLinesSplit(read, ParseLine(read, st, n + 1, a[0]), n + 1, a[1..], b);
    }
  }

  ghost function After(read: NumberReader, lines: seq<string>, count: nat): Parse
    requires count <= |lines|
  {
    ParseLines(read, EMPTY_PARSE, 0, lines[..count])
  }

  lemma {:induction false} ParseSnoc(read: NumberReader, st: Parse, n: nat, init: seq<string>, line: string)
    ensures ParseLines(read, st, n, init + [line]) == ParseLine(read, ParseLines(read, st, n, init), n + |init| + 1,
                                                                line)
  {
    ParseLinesSplit(read, st, n, init, [line]);
    ParseOne(read, ParseLines(read, st, n, init), n + |init|, line);
  }

  lemma {:induction false} ParseOne(read: NumberReader, st: Parse, n: nat, line: string)
    ensures ParseLines(read, st, n, [line]) == ParseLine(read, st, n + 1, line)
  {
    var next := ParseLine(read, st, n + 1, line);
    assert [line][1..] == [];
    assert ParseLines(read, next, n + 1, []) == next;
  }

  lemma {:induction false} AfterNext(read: NumberReader, lines: seq<string>, count: nat)
    requires count < |lines|
    ensures After(read, lines, count + 1) == ParseLine(read, After(read, lines, count), count + 1, lines[count])
  {
    ParseNext(read, EMPTY_PARSE, 0, lines, count);
  }

  lemma {:induction false} ParseNext(read: NumberReader, st: Parse, n: nat, lines: seq<string>, count: nat)
    requires count < |lines|
    ensures ParseLines(read, st, n, lines[..count + 1]) == ParseLine(read, ParseLines(read, st, n, lines[..count]),
                                                                     n + count + 1, lines[count])
  {
    assert lines[..count + 1] == lines[..count] + [lines[count]];
    ParseSnoc(read, st, n, lines[..count], lines[count]);
  }

  lemma {:induction false} AfterRest(read: NumberReader, lines: seq<string>, count: nat)
    requires count <= |lines|
    ensures ParseLines(read, EMPTY_PARSE, 0, lines) == ParseLines(read, After(read, lines, count), count,
                                                                  lines[count..])
  {
    ParseRest(read, EMPTY_PARSE, 0, lines, count);
  }

  lemma {:induction false} ParseRest(read: NumberReader, st: Parse, n: nat, lines: seq<string>, count: nat)
    requires count <= |lines|
    ensures ParseLines(read, st, n, lines) == ParseLines(read, ParseLines(read, st, n, lines[..count]), n + count,
                                                         lines[count..])
  {
    assert lines == lines[..count] + lines[count..];
    ParseLinesSplit(read, st, n, lines[..count], lines[count..]);
  }

  /** The line that created an attribute of the finished catalog. */
  lemma {:induction false} CreatedAt(read: NumberReader, lines: seq<string>, count: nat, l: Location) returns (c: nat)
    requires count <= |lines| && Has(After(read, lines, count).vendors, l)
    ensures c < count && !Has(After(read, lines, c).vendors, l) && Has(After(read, lines, c + 1).vendors, l)
  {
    if count > 0 && Has(After(read, lines, count - 1).vendors, l) {
      c := CreatedAt(read, lines, count - 1, l);
    } else {
      assert lines[..0] == [];
      c := count - 1;
    }
  }

  /** For every text and every attribute of the finished catalog: there is one line that created it,
      and its values are exactly the VALUE lines of its name after that line, in order. */
  lemma {:induction false} AttributeValues(read: NumberReader, lines: seq<string>, l: Location) returns (c: nat)
    requires Has(ParseLines(read, EMPTY_PARSE, 0, lines).vendors, l)
    ensures c < |lines| && !Has(After(read, lines, c).vendors, l) && Has(After(read, lines, c + 1).vendors, l)
    ensures var attribute := AttributeAt(ParseLines(read, EMPTY_PARSE, 0, lines).vendors, l);
            attribute.values == ValuesNamed(lines[c + 1..], Lower(attribute.name))
  {
    assert lines[..|lines|] == lines;
    c := CreatedAt(read, lines, |lines|, l);
    BornEmpty(read, lines, c, l);
    AfterRest(read, lines, c + 1);
    AttributeCollects(read, After(read, lines, c + 1), c + 1, lines[c + 1..], l);
  }

  lemma {:induction false} BornEmpty(read: NumberReader, lines: seq<string>, c: nat, l: Location)
    requires c < |lines| && !Has(After(read, lines, c).vendors, l) && Has(After(read, lines, c + 1).vendors, l)
    ensures AttributeAt(After(read, lines, c + 1).vendors, l).values == []
  {
    AfterNext(read, lines, c);
    LineGrows(read, After(read, lines, c), c + 1, lines[c]);
  }

  // ----- the unresolved list

  /** The value of a VALUE line that names none of the vendors' attributes. */
  ghost function Unplaced(vendors: seq<Vendor>, line: string): seq<Value> {
    var value := ValueOf(line);
    if value.Some? && !Declares(vendors, Lower(Trim(value.value.attribute))) then [value.value] else []
  }

  /** The VALUE lines that name no attribute declared before them. */
  ghost function Undeclared(read: NumberReader, lines: seq<string>, count: nat): seq<Value>
    requires count <= |lines|
  {
    if count == 0 then []
    else Undeclared(read, lines, count - 1) + Unplaced(After(read, lines, count - 1).vendors, lines[count - 1])
  }

  /** The unresolved list is exactly those lines, in order: a well-formed VALUE reaches every earlier
      attribute of its name, or this list, never both and never neither. */
  lemma {:induction false} UnresolvedValues(read: NumberReader, lines: seq<string>, count: nat)
    requires count <= |lines|
    ensures After(read, lines, count).values == Undeclared(read, lines, count)
  {
    if count == 0 {
      assert lines[..0] == [];
    } else {
      var before, line := After(read, lines, count - 1), lines[count - 1];
      UnresolvedValues(read, lines, count - 1);
      assert After(read, lines, count).values == before.values + Unplaced(before.vendors, line) by {
        AfterNext(read, lines, count - 1);
        UnresolvedStep(read, before, count, line);
      }
    }
  }

  lemma {:induction false} UnresolvedStep(read: NumberReader, st: Parse, n: nat, line: string)
    ensures ParseLine(read, st, n, line).values == st.values + Unplaced(st.vendors, line)
  {
    EmptyExtension(st.values);
    var fields := Fields(StripComment(line));
    if fields != [] && EqualFold(fields[0], "VALUE") {
      assert !EqualFold(fields[0], "VENDOR") && !EqualFold(fields[0], "BEGIN-VENDOR")
             && !EqualFold(fields[0], "END-VENDOR") && !EqualFold(fields[0], "ATTRIBUTE") by {
        DirectiveLengths();
      }
    }
  }

  lemma {:induction false} DirectiveLengths()
    ensures |Lower("VALUE")| == 5 && |Lower("VENDOR")| == 6 && |Lower("BEGIN-VENDOR")| == 12
            && |Lower("END-VENDOR")| == 10 && |Lower("ATTRIBUTE")| == 9
  {
  }
}

/** The dictionary parser as it runs: a catalog updated in place, an index of vendors by name and an
    index of attribute locations by name (configs/vendor_dictionary.go). Each method is proved
    against the linear-scan meaning of the same line, so the indexes refine the scans and no index
    lookup ever leaves the catalog. */
module DictionaryParser {
  import opened Text
  import opened Sequences
  import opened Dictionary

  datatype Location = Location(vendor: nat, attribute: nat)

  /** The vendor index agrees with the vendors: each is found under its folded name, and nothing else is. */
  ghost predicate VendorsIndexed(vendors: seq<Vendor>, index: map<string, nat>) {
    && (forall k <- index :: index[k] < |vendors| && Lower(vendors[index[k]].name) == k)
    && (forall i :: 0 <= i < |vendors| ==> Lower(vendors[i].name) in index && index[Lower(vendors[i].name)] == i)
  }

  ghost predicate NamesTrimmed(vendors: seq<Vendor>) {
    forall i :: 0 <= i < |vendors| ==> vendors[i].name != "" && CleanEnds(IsSpace, vendors[i].name)
  }

  ghost predicate At(vendors: seq<Vendor>, l: Location, key: string) {
    && l.vendor < |vendors| && l.attribute < |vendors[l.vendor].attributes|
    && Lower(vendors[l.vendor].attributes[l.attribute].name) == key
  }

  function Lookup(index: map<string, seq<Location>>, key: string): seq<Location> {
    if key in index then index[key] else []
  }

  /** The location index lists, for every name, each location of that name once. */
  ghost predicate AttributesIndexed(vendors: seq<Vendor>, index: map<string, seq<Location>>) {
    forall key :: LocationsOf(vendors, Lookup(index, key), key)
  }

  ghost predicate LocationsOf(vendors: seq<Vendor>, locations: seq<Location>, key: string) {
    && NoRepeats(locations)
    && forall l :: l in locations <==> At(vendors, l, key)
  }

  lemma {:induction false} IndexIsScan(vendors: seq<Vendor>, index: map<string, nat>, key: string)
    requires VendorsIndexed(vendors, index)
    ensures key in index <==> VendorIndex(vendors, key) < |vendors|
    ensures key in index ==> index[key] == VendorIndex(vendors, key)
    ensures DistinctNames(vendors)
  {
    assert key in index ==> Lower(vendors[index[key]].name) == key;
  }

  lemma {:induction false} SameLocations(before: seq<Vendor>, after: seq<Vendor>, index: map<string, seq<Location>>)
    requires AttributesIndexed(before, index)
    requires forall l, key :: At(after, l, key) <==> At(before, l, key)
    ensures AttributesIndexed(after, index)
  {
    forall key ensures LocationsOf(after, Lookup(index, key), key) {
      assert LocationsOf(before, Lookup(index, key), key);
    }
  }

  lemma {:induction false} UpsertKeepsLocations(vendors: seq<Vendor>, name: string, id: int, options: seq<string>,
                                                index: map<string, seq<Location>>)
    requires AttributesIndexed(vendors, index)
    ensures AttributesIndexed(Upsert(vendors, name, id, options), index)
  {
    var after := Upsert(vendors, name, id, options);
    assert forall i :: 0 <= i < |vendors| ==> after[i].attributes == vendors[i].attributes;
    assert forall i :: |vendors| <= i < |after| ==> after[i].attributes == [];
    SameLocations(vendors, after, index);
  }

  lemma {:induction false} SameNames(before: seq<Vendor>, after: seq<Vendor>, index: map<string, nat>)
    requires VendorsIndexed(before, index) && NamesTrimmed(before)
    requires |after| == |before| && forall i :: 0 <= i < |after| ==> after[i].name == before[i].name
    ensures VendorsIndexed(after, index) && NamesTrimmed(after)
  {
  }

  lemma {:induction false} AppendedVendor(vendors: seq<Vendor>, index: map<string, nat>, vendor: Vendor)
    requires VendorsIndexed(vendors, index) && NamesTrimmed(vendors)
    requires Lower(vendor.name) !in index && vendor.name != "" && CleanEnds(IsSpace, vendor.name)
    ensures VendorsIndexed(vendors + [vendor], index[Lower(vendor.name) := |vendors|])
            && NamesTrimmed(vendors + [vendor])
  {
  }

  /** The vendor index after `upsertVendor`. */
  function IndexAfter(vendors: seq<Vendor>, index: map<string, nat>, name: string): map<string, nat> {
    var key := Lower(Trim(name));
    if Blank(name) || key in index then index else index[key := |vendors|]
  }

  lemma {:induction false} UpsertKeepsIndex(vendors: seq<Vendor>, index: map<string, nat>, name: string, id: int,
                                            options: seq<string>)
    requires VendorsIndexed(vendors, index) && NamesTrimmed(vendors) && !Blank(name)
    ensures var after, newIndex := Upsert(vendors, name, id, options), IndexAfter(vendors, index, name);
            && NamesTrimmed(after) && VendorsIndexed(after, newIndex)
            && VendorIndex(after, Lower(Trim(name))) == newIndex[Lower(Trim(name))] < |after|
    ensures VendorIndex(vendors, Lower(Trim(name))) == IndexAfter(vendors, index, name)[Lower(Trim(name))]
  {
    var key, after := Lower(Trim(name)), Upsert(vendors, name, id, options);
    TrimTrim(name);
    IndexIsScan(vendors, index, key);
    if key in index {
      SameNames(vendors, after, index);
    } else {
      AppendedVendor(vendors, index, Vendor(Trim(name), id, NormalizeOptions(options), []));
    }
    IndexIsScan(after, IndexAfter(vendors, index, name), key);
  }

  /** A catalog under construction with its indexes. */
  class CatalogBuilder {
    const read: NumberReader
    var vendors: seq<Vendor>
    var values: seq<Value>
    var warnings: seq<Warning>
    var vendorIndexes: map<string, nat>
    var attributeIndexes: map<string, seq<Location>>
    var activeVendor: string

    ghost predicate Valid()
      reads this
    {
      && VendorsIndexed(vendors, vendorIndexes)
      && NamesTrimmed(vendors)
      && AttributesIndexed(vendors, attributeIndexes)
    }

    ghost function Model(): Parse
      reads this
    {
      Parse(vendors, values, warnings, activeVendor)
    }

    constructor (read: NumberReader)
      ensures Valid() && Model() == EMPTY_PARSE && this.read == read
    {
      this.read := read;
      vendors, values, warnings, activeVendor := [], [], [], "";
      vendorIndexes, attributeIndexes := map[], map[];
    }

    /** `upsertVendor`: -1 for a blank name, otherwise the position of the vendor. */
    method UpsertVendor(name: string, id: int, options: seq<string>) returns (idx: int)
      requires VendorsIndexed(vendors, vendorIndexes) && NamesTrimmed(vendors)
      modifies this`vendors, this`vendorIndexes
      ensures VendorsIndexed(vendors, vendorIndexes) && NamesTrimmed(vendors)
              && vendors == Upsert(old(vendors), name, id, options)
      ensures AttributesIndexed(old(vendors), attributeIndexes) ==> AttributesIndexed(vendors, attributeIndexes)
      ensures if Blank(name) then idx == -1 else 0 <= idx < |vendors| && idx == VendorIndex(vendors, Lower(Trim(name)))
    {
      var trimmed := Trim(name);
      if trimmed == "" {
        return -1;
      }
      var key := Lower(trimmed);
      var normalized := NormalizedOptions(options);
      UpsertKeepsIndex(vendors, vendorIndexes, name, id, options);
      if AttributesIndexed(vendors, attributeIndexes) {
        UpsertKeepsLocations(vendors, name, id, options, attributeIndexes);
      }
      if key in vendorIndexes {
        idx := vendorIndexes[key];
        var merged := AppendDistinct(Lower, vendors[idx].options, normalized);
        vendors := vendors[idx := vendors[idx].(id := if id > 0 then id else vendors[idx].id, options := merged)];
      } else {
        vendors := vendors + [Vendor(trimmed, id, normalized, [])];
        idx := |vendors| - 1;
        vendorIndexes := vendorIndexes[key := idx];
      }
    }

    /** `resolveAttributeVendor`: lookups go through the index. */
    method ResolveAttributeVendor(attribute: string, fields: seq<string>) returns (name: string, options: seq<string>)
      requires Valid()
      ensures (name, options) == ResolveVendor(attribute, activeVendor, fields, vendors)
      ensures name != "" ==> !Blank(name)
    {
      TrimTrim(activeVendor);
      if Trim(activeVendor) != "" {
        return Trim(activeVendor), fields;
      }
      var prefix := DotPrefix(Trim(attribute));
      if prefix.Some? {
        IndexIsScan(vendors, vendorIndexes, Lower(prefix.value));
        if Lower(prefix.value) in vendorIndexes {
          name, options := vendors[vendorIndexes[Lower(prefix.value)]].name, fields;
          StripFixed(IsSpace, name);
          return;
        }
      }
      options := [];
      assert fields[0..] == fields;
      for i := 0 to |fields|
        invariant ScanFields(fields, fields[i..], options, vendors) == ScanFields(fields, fields, [], vendors)
      {
        assert fields[i..][0] == fields[i] && fields[i..][1..] == fields[i + 1..];
        var trimmed := Trim(TrimComma(fields[i]));
        if trimmed != "" {
          if "vendor=" <= Lower(trimmed) {
            TrimTrim(trimmed[7..]);
            return Trim(trimmed[7..]), options + FieldsAfter(fields, fields[i]);
          }
          IndexIsScan(vendors, vendorIndexes, Lower(trimmed));
          if Lower(trimmed) in vendorIndexes {
            name := vendors[vendorIndexes[Lower(trimmed)]].name;
            StripFixed(IsSpace, name);
            return name, options + FieldsAfter(fields, fields[i]);
          }
          options := options + [trimmed];
        }
      }
      name := "";
    }

    /** `appendValueToAttributes`: visits the indexed locations, all of which are inside the catalog. */
    method AppendValueToAttributes(value: Value) returns (found: bool)
      requires Valid()
      modifies this`vendors
      ensures Valid()
      ensures found <==> Declares(old(vendors), Lower(Trim(value.attribute)))
      ensures vendors == if found then AddValue(old(vendors), value) else old(vendors)
    {
      var key := Lower(Trim(value.attribute));
      var locations := Lookup(attributeIndexes, key);
      LookupDeclares(vendors, attributeIndexes, key);
      if locations == [] {
        return false;
      }
      for n := 0 to |locations|
        invariant Partly(old(vendors), vendors, locations[..n], value)
      {
        var l := locations[n];
        assert l in locations && At(old(vendors), l, key);
        assert l.vendor < |vendors| && l.attribute < |vendors[l.vendor].attributes|;
        PartlyStep(old(vendors), vendors, locations, n, value);
        var attribute := vendors[l.vendor].attributes[l.attribute];
        var attributes := vendors[l.vendor].attributes[l.attribute := attribute.(values := attribute.values + [value])];
        vendors := vendors[l.vendor := vendors[l.vendor].(attributes := attributes)];
      }
      PartlyAll(old(vendors), vendors, locations, value);
      AddValueKeeps(old(vendors), value, vendorIndexes, attributeIndexes);
      found := true;
    }

    /** The last step of an ATTRIBUTE line: the attribute joins its vendor, and the index its location. */
    method FileAttribute(idx: nat, attribute: Attribute)
      requires Valid() && idx < |vendors|
      modifies this`vendors, this`attributeIndexes
      ensures Valid() && vendors == AddAttribute(old(vendors), idx, attribute)
    {
      var key := Lower(attribute.name);
      AddAttributeKeeps(vendors, idx, attribute, vendorIndexes, attributeIndexes);
      attributeIndexes := attributeIndexes[key := Lookup(attributeIndexes, key)
                                           + [Location(idx, |vendors[idx].attributes|)]];
      vendors := AddAttribute(vendors, idx, attribute);
    }

    method ParseAttribute(n: nat, fields: seq<string>)
      requires Valid() && fields != []
      modifies this
      ensures Valid() && Model() == ParseAttributeLine(read, old(Model()), n, fields)
    {
      if |fields| < 4 {
        warnings := warnings + [Warning(n, AttributeFieldsMissing)];
        return;
      }
      var number := ParseAttributeNumber(read, fields[2]);
      if number.None? {
        warnings := warnings + [Warning(n, AttributeNumberInvalid)];
        return;
      }
      var name, options := ResolveAttributeVendor(fields[1], fields[4..]);
      if name == "" {
        return;
      }
      var idx := UpsertVendor(name, 0, []);
      var normalized := NormalizedOptions(options);
      FileAttribute(idx, Attribute(fields[1], number.value.0, number.value.1, Lower(fields[3]), normalized, []));
    }

    method ParseVendor(n: nat, fields: seq<string>)
      requires Valid()
      modifies this
      ensures Valid() && Model() == ParseVendorLine(read, old(Model()), n, fields)
    {
      if |fields| < 3 {
        warnings := warnings + [Warning(n, VendorFieldsMissing)];
        return;
      }
      var id := read(Trim(fields[2]));
      if id.None? || id.value < 1 {
        warnings := warnings + [Warning(n, VendorIDInvalid)];
        return;
      }
      var _ := UpsertVendor(fields[1], id.value, fields[3..]);
    }

    method ParseBegin(n: nat, fields: seq<string>)
      requires Valid()
      modifies this
      ensures Valid() && Model() == ParseBeginLine(old(Model()), n, fields)
    {
      if |fields| < 2 {
        warnings := warnings + [Warning(n, BeginNameMissing)];
        return;
      }
      activeVendor := fields[1];
      var _ := UpsertVendor(activeVendor, 0, fields[2..]);
    }

    method ParseValue(n: nat, fields: seq<string>)
      requires Valid()
      modifies this
      ensures Valid() && Model() == ParseValueLine(old(Model()), n, fields)
    {
      if |fields| < 4 {
        warnings := warnings + [Warning(n, ValueFieldsMissing)];
        return;
      }
      var value := Value(fields[1], fields[2], fields[3]);
      var found := AppendValueToAttributes(value);
      if !found {
        values := values + [value];
      }
    }

    /** One turn of the parser loop. */
    method ParseNext(n: nat, line: string)
      requires Valid()
      modifies this
      ensures Valid() && Model() == ParseLine(read, old(Model()), n, line)
    {
      var fields := Fields(StripComment(line));
      if fields == [] {
      } else if EqualFold(fields[0], "VENDOR") {
        ParseVendor(n, fields);
      } else if EqualFold(fields[0], "BEGIN-VENDOR") {
        ParseBegin(n, fields);
      } else if EqualFold(fields[0], "END-VENDOR") {
        activeVendor := "";
      } else if EqualFold(fields[0], "ATTRIBUTE") {
        ParseAttribute(n, fields);
      } else if EqualFold(fields[0], "VALUE") {
        ParseValue(n, fields);
      }
    }
  }

  /** `ParseVendorDictionaryCatalog`: the indexed parser computes the linear-scan parse of every text. */
  method ParseVendorDictionaryCatalog(read: NumberReader, source: string, text: string) returns (catalog: Catalog)
    ensures catalog == ParseCatalog(read, source, text)
  {
    var parser := new CatalogBuilder(read);
    var lines := Split(text, '\n');
    assert lines[0..] == lines;
    for i := 0 to |lines|
      invariant parser.Valid() && parser.read == read
      invariant ParseLines(read, parser.Model(), i, lines[i..]) == ParseLines(read, EMPTY_PARSE, 0, lines)
    {
      assert lines[i..][1..] == lines[i + 1..];
      parser.ParseNext(i + 1, lines[i]);
    }
    catalog := Catalog(Trim(source), parser.vendors, parser.values, parser.warnings);
  }

  lemma {:induction false} AddAttributeKeeps(vendors: seq<Vendor>, i: nat, attribute: Attribute,
                                             index: map<string, nat>, locations: map<string, seq<Location>>)
    requires VendorsIndexed(vendors, index) && NamesTrimmed(vendors) && AttributesIndexed(vendors, locations)
             && i < |vendors|
    ensures var after, key := AddAttribute(vendors, i, attribute), Lower(attribute.name);
            && VendorsIndexed(after, index) && NamesTrimmed(after)
            && AttributesIndexed(after, locations[key := Lookup(locations, key)
                                                  + [Location(i, |vendors[i].attributes|)]])
  {
    var after, key := AddAttribute(vendors, i, attribute), Lower(attribute.name);
    SameNames(vendors, after, index);
    var added := Location(i, |vendors[i].attributes|);
    var newLocations := locations[key := Lookup(locations, key) + [added]];
    forall k ensures LocationsOf(after, Lookup(newLocations, k), k) {
      assert LocationsOf(vendors, Lookup(locations, k), k);
      assert forall l :: At(after, l, k) <==> At(vendors, l, k) || (l == added && k == key);
      assert !At(vendors, added, k);
    }
  }

  lemma {:induction false} LookupDeclares(vendors: seq<Vendor>, index: map<string, seq<Location>>, key: string)
    requires AttributesIndexed(vendors, index)
    ensures Lookup(index, key) != [] <==> Declares(vendors, key)
  {
    var locations := Lookup(index, key);
    assert LocationsOf(vendors, locations, key);
    if locations != [] {
      assert locations[0] in locations && At(vendors, locations[0], key);
    }
    if Declares(vendors, key) {
      var v, a :| 0 <= v < |vendors| && 0 <= a < |vendors[v].attributes| && Lower(vendors[v].attributes[a].name) == key;
      assert At(vendors, Location(v, a), key);
    }
  }

  /** The catalog after a value has reached the locations in `done`. */
  ghost predicate Partly(before: seq<Vendor>, after: seq<Vendor>, done: seq<Location>, value: Value) {
    && |after| == |before|
    && forall v :: 0 <= v < |before| ==>
         && |after[v].attributes| == |before[v].attributes|
         && after[v] == before[v].(attributes := after[v].attributes)
         && forall a :: 0 <= a < |before[v].attributes| ==>
              after[v].attributes[a] == if Location(v, a) in done then AddValueTo(before[v].attributes[a], value)
                else before[v].attributes[a]
  }

  lemma {:induction false} PartlyStep(before: seq<Vendor>, now: seq<Vendor>, locations: seq<Location>, n: nat,
                                      value: Value)
    requires n < |locations| && NoRepeats(locations) && Partly(before, now, locations[..n], value)
    requires At(before, locations[n], Lower(Trim(value.attribute)))
    ensures var l := locations[n];
            && l.vendor < |now| && l.attribute < |now[l.vendor].attributes|
            && var attribute := now[l.vendor].attributes[l.attribute];
            var attributes := now[l.vendor].attributes[l.attribute := attribute.(values := attribute.values + [value])];
            Partly(before, now[l.vendor := now[l.vendor].(attributes := attributes)], locations[..n + 1], value)
  {
    assert locations[..n + 1] == locations[..n] + [locations[n]];
    assert locations[n] !in locations[..n];
  }

  lemma {:induction false} PartlyAll(before: seq<Vendor>, after: seq<Vendor>, locations: seq<Location>, value: Value)
    requires Partly(before, after, locations[..|locations|], value)
    requires LocationsOf(before, locations, Lower(Trim(value.attribute)))
    ensures after == AddValue(before, value)
  {
    assert locations[..|locations|] == locations;
    var target := AddValue(before, value);
    forall v | 0 <= v < |before| ensures after[v] == target[v] {
      forall a | 0 <= a < |before[v].attributes| ensures after[v].attributes[a] == target[v].attributes[a] {
        assert Location(v, a) in locations <==> At(before, Location(v, a), Lower(Trim(value.attribute)));
      }
      assert after[v].attributes == target[v].attributes;
    }
  }

  lemma {:induction false} AddValueKeeps(vendors: seq<Vendor>, value: Value, index: map<string, nat>,
                                         locations: map<string, seq<Location>>)
    requires VendorsIndexed(vendors, index) && NamesTrimmed(vendors) && AttributesIndexed(vendors, locations)
    ensures var after := AddValue(vendors, value);
            VendorsIndexed(after, index) && NamesTrimmed(after) && AttributesIndexed(after, locations)
  {
    var after := AddValue(vendors, value);
    SameNames(vendors, after, index);
    assert forall v, a :: 0 <= v < |vendors| && 0 <= a < |vendors[v].attributes| ==>
           after[v].attributes[a].name == vendors[v].attributes[a].name;
    SameLocations(vendors, after, locations);
  }
}

/** Merging dictionary catalogs (configs/vendor_dictionary_loader.go). The merge is a monoid on
    catalogs whose options are stable under normalisation, and that condition is exact. */
module CatalogMerge {
  import opened Text
  import opened Wrappers
  import opened Dictionary
  import opened DictionaryParser
  import opened KeyedMerge

  // ----- attributes

  function AttributeKey(a: Attribute): string {
    Lower(Trim(a.name))
  }

  function KeepAttribute(a: Attribute): Attribute {
    a
  }

  /** The first non-zero number and the first non-empty OID and type win; lists accumulate. */
  function CombineAttributes(x: Attribute, y: Attribute): Attribute {
    Attribute(x.name,
              if x.number == 0 then y.number else x.number,
              if x.oid == "" then y.oid else x.oid,
              if x.kind == "" then y.kind else x.kind,
              MergeOptions(x.options, y.options),
              MergeValues(x.values, y.values))
  }

  const ATTRIBUTE_RULES: Rules<Attribute> := Rules(AttributeKey, KeepAttribute, CombineAttributes)

  function MergeAttributes(existing: seq<Attribute>, additions: seq<Attribute>): seq<Attribute> {
    Fold(ATTRIBUTE_RULES, existing, additions)
  }

  // ----- vendors

  function VendorKey(v: Vendor): string {
    Lower(Trim(v.name))
  }

  function InsertVendor(v: Vendor): Vendor {
    Vendor(Trim(v.name), v.id, NormalizeOptions(v.options), MergeAttributes([], v.attributes))
  }

  /** The last positive ID wins; options and attributes accumulate. */
  function CombineVendors(x: Vendor, y: Vendor): Vendor {
    Vendor(x.name, if y.id > 0 then y.id else x.id, MergeOptions(x.options, y.options),
           MergeAttributes(x.attributes, y.attributes))
  }

  const VENDOR_RULES: Rules<Vendor> := Rules(VendorKey, InsertVendor, CombineVendors)

  // ----- catalogs

  function AllVendors(catalogs: seq<Catalog>): seq<Vendor> {
    if catalogs == [] then [] else catalogs[0].vendors + AllVendors(catalogs[1..])
  }

  function AllValues(catalogs: seq<Catalog>): seq<Value> {
    if catalogs == [] then [] else catalogs[0].values + AllValues(catalogs[1..])
  }

  function AllWarnings(catalogs: seq<Catalog>): seq<Warning> {
    if catalogs == [] then [] else catalogs[0].warnings + AllWarnings(catalogs[1..])
  }

  /** The value of `MergeVendorDictionaryCatalogs`. */
  function Merge(source: string, catalogs: seq<Catalog>): Catalog {
    Catalog(Trim(source), Fold(VENDOR_RULES, [], AllVendors(catalogs)), AllValues(catalogs), AllWarnings(catalogs))
  }

  // ----- the merge as it runs

  /** `mergeVendorDictionaryAttribute`: a linear search, then an update in place or an append. */
  method MergeAttribute(attributes: seq<Attribute>, attribute: Attribute) returns (out: seq<Attribute>)
    ensures out == Step(ATTRIBUTE_RULES, attributes, attribute)
  {
    var key := Lower(Trim(attribute.name));
    if key == "" {
      return attributes;
    }
    for i := 0 to |attributes|
      invariant forall j :: 0 <= j < i ==> AttributeKey(attributes[j]) != key
    {
      if Lower(Trim(attributes[i].name)) == key {
        IndexUnique(AttributeKey, attributes, key, i);
        var existing := attributes[i];
        if existing.number == 0 {
          existing := existing.(number := attribute.number);
        }
        if existing.oid == "" {
          existing := existing.(oid := attribute.oid);
        }
        if existing.kind == "" {
          existing := existing.(kind := attribute.kind);
        }
        var normalized := NormalizedOptions(attribute.options);
        var options := AppendDistinct(Lower, existing.options, normalized);
        var values := AppendDistinct(ValueKey, existing.values, attribute.values);
        return attributes[i := existing.(options := options, values := values)];
      }
    }
    IndexUnique(AttributeKey, attributes, key, |attributes|);
    out := attributes + [attribute];
  }

  lemma {:induction false} UpsertIsStep(vendors: seq<Vendor>, v: Vendor)
    requires NamesTrimmed(vendors) && !Blank(v.name)
    ensures var i := VendorIndex(vendors, VendorKey(v));
            var upserted := Upsert(vendors, v.name, v.id, v.options);
            && i < |upserted| && IndexOf(VendorKey, vendors, VendorKey(v)) == i
            && Step(VENDOR_RULES, vendors, v)
              == upserted[i := upserted[i].(attributes := MergeAttributes(upserted[i].attributes, v.attributes))]
  {
    var i := VendorIndex(vendors, VendorKey(v));
    forall j | 0 <= j < |vendors| ensures VendorKey(vendors[j]) == Lower(vendors[j].name) {
      StripFixed(IsSpace, vendors[j].name);
    }
    IndexUnique(VendorKey, vendors, VendorKey(v), i);
  }

  /** The attributes of one vendor, one after the other. */
  method MergeEach(attributes: seq<Attribute>, additions: seq<Attribute>) returns (out: seq<Attribute>)
    ensures out == MergeAttributes(attributes, additions)
  {
    out := attributes;
    assert additions[0..] == additions;
    for i := 0 to |additions|
      invariant MergeAttributes(out, additions[i..]) == MergeAttributes(attributes, additions)
    {
      assert additions[i..][0] == additions[i] && additions[i..][1..] == additions[i + 1..];
      out := MergeAttribute(out, additions[i]);
    }
  }

  /** One vendor of one catalog. */
  method MergeVendor(builder: CatalogBuilder, v: Vendor)
    requires VendorsIndexed(builder.vendors, builder.vendorIndexes) && NamesTrimmed(builder.vendors)
    modifies builder
    ensures VendorsIndexed(builder.vendors, builder.vendorIndexes) && NamesTrimmed(builder.vendors)
    ensures builder.vendors == Step(VENDOR_RULES, old(builder.vendors), v)
    ensures builder.values == old(builder.values) && builder.warnings == old(builder.warnings)
  {
    if !Blank(v.name) {
      UpsertIsStep(builder.vendors, v);
      UpsertKeepsIndex(builder.vendors, builder.vendorIndexes, v.name, v.id, v.options);
    }
    var idx := builder.UpsertVendor(v.name, v.id, v.options);
    if idx < 0 {
      return;
    }
    var attributes := MergeEach(builder.vendors[idx].attributes, v.attributes);
    ghost var upserted := builder.vendors;
    builder.vendors := builder.vendors[idx := builder.vendors[idx].(attributes := attributes)];
    SameNames(upserted, builder.vendors, builder.vendorIndexes);
  }

  /** `MergeVendorDictionaryCatalogs`. */
  method MergeVendorDictionaryCatalogs(source: string, catalogs: seq<Catalog>) returns (merged: Catalog)
    ensures merged == Merge(source, catalogs)
  {
    var builder := new CatalogBuilder(_ => None);
    var values: seq<Value>, warnings: seq<Warning> := [], [];
    for c := 0 to |catalogs|
      invariant VendorsIndexed(builder.vendors, builder.vendorIndexes) && NamesTrimmed(builder.vendors)
      invariant builder.vendors == Fold(VENDOR_RULES, [], AllVendors(catalogs[..c]))
      invariant values == AllValues(catalogs[..c]) && warnings == AllWarnings(catalogs[..c])
    {
      ghost var before := builder.vendors;
      var vendors := catalogs[c].vendors;
      for i := 0 to |vendors|
        invariant VendorsIndexed(builder.vendors, builder.vendorIndexes) && NamesTrimmed(builder.vendors)
        invariant builder.vendors == Fold(VENDOR_RULES, before, vendors[..i])
      {
        assert vendors[..i + 1] == vendors[..i] + [vendors[i]];
        FoldSnoc(VENDOR_RULES, before, vendors[..i], vendors[i]);
        MergeVendor(builder, vendors[i]);
      }
      assert vendors[..|vendors|] == vendors;
      AllSnoc(catalogs, c);
      FoldConcat(VENDOR_RULES, [], AllVendors(catalogs[..c]), vendors);
      values := values + catalogs[c].values;
      warnings := warnings + catalogs[c].warnings;
    }
    assert catalogs[..|catalogs|] == catalogs;
    merged := Catalog(Trim(source), builder.vendors, values, warnings);
  }

  lemma {:induction false} VendorsConcat(a: seq<Catalog>, b: seq<Catalog>)
    ensures AllVendors(a + b) == AllVendors(a) + AllVendors(b)
  {
    if a == [] {
      assert a + b == b;
    } else {
      assert (a + b)[0] == a[0] && (a + b)[1..] == a[1..] + b;
      VendorsConcat(a[1..], b);
      assert AllVendors(a + b) == a[0].vendors + (AllVendors(a[1..]) + AllVendors(b));
    }
  }

  lemma {:induction false} ValuesConcat(a: seq<Catalog>, b: seq<Catalog>)
    ensures AllValues(a + b) == AllValues(a) + AllValues(b)
  {
    if a == [] {
      assert a + b == b;
    } else {
      assert (a + b)[0] == a[0] && (a + b)[1..] == a[1..] + b;
      ValuesConcat(a[1..], b);
      assert AllValues(a + b) == a[0].values + (AllValues(a[1..]) + AllValues(b));
    }
  }

  lemma {:induction false} WarningsConcat(a: seq<Catalog>, b: seq<Catalog>)
    ensures AllWarnings(a + b) == AllWarnings(a) + AllWarnings(b)
  {
    if a == [] {
      assert a + b == b;
    } else {
      assert (a + b)[0] == a[0] && (a + b)[1..] == a[1..] + b;
      WarningsConcat(a[1..], b);
      assert AllWarnings(a + b) == a[0].warnings + (AllWarnings(a[1..]) + AllWarnings(b));
    }
  }

  lemma {:induction false} AllConcat(a: seq<Catalog>, b: seq<Catalog>)
    ensures AllVendors(a + b) == AllVendors(a) + AllVendors(b)
    ensures AllValues(a + b) == AllValues(a) + AllValues(b)
    ensures AllWarnings(a + b) == AllWarnings(a) + AllWarnings(b)
  {
    VendorsConcat(a, b);
    ValuesConcat(a, b);
    WarningsConcat(a, b);
  }

  lemma {:induction false} AllOne(c: Catalog)
    ensures AllVendors([c]) == c.vendors && AllValues([c]) == c.values && AllWarnings([c]) == c.warnings
  {
    assert [c][1..] == [];
    assert AllVendors([]) == [] && AllValues([]) == [] && AllWarnings([]) == [];
  }

  lemma {:induction false} AllSnoc(catalogs: seq<Catalog>, c: nat)
    requires c < |catalogs|
    ensures AllVendors(catalogs[..c + 1]) == AllVendors(catalogs[..c]) + catalogs[c].vendors
    ensures AllValues(catalogs[..c + 1]) == AllValues(catalogs[..c]) + catalogs[c].values
    ensures AllWarnings(catalogs[..c + 1]) == AllWarnings(catalogs[..c]) + catalogs[c].warnings
  {
    assert catalogs[..c + 1] == catalogs[..c] + [catalogs[c]];
    AllConcat(catalogs[..c], [catalogs[c]]);
    AllOne(catalogs[c]);
  }
}

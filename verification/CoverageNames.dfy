/** The coverage search with the real name normalisers (configs/vendor_dictionary.go): it reads names from
    loaded dictionaries, so it can meet one whose prefix slice leaves the text. */
module CoverageNames {
  import opened Text
  import opened Sequences
  import opened Wrappers
  import opened Dictionary
  import opened ReleaseKeys
  import opened ProfileNames
  import C = Coverage

  /** The folded name a search looks for. */
  function Sought(tables: Tables, vendor: Vendor, attribute: string): string {
    Lower(Trim(NamesFrom(tables).attribute(vendor.name, attribute)))
  }

  function Spelling(vendor: Vendor, key: string): string -> bool {
    (name: string) => Lower(name) == key || Lower(name) == Lower(vendor.name) + "." + key
  }

  /** The outcome of looking an attribute up in a matched vendor: `None` when normalising the sought name,
      or that of an attribute met before a hit, would slice out of bounds. */
  function Lookup(tables: Tables, vendor: Vendor, attribute: string): Option<bool> {
    if NormalizeAttribute(tables, vendor.name, attribute).None? then None
    else SearchOutcome(Normaliser(tables, vendor.name), Spelling(vendor, Sought(tables, vendor, attribute)),
                       vendor.attributes)
  }

  /** The attribute loop of the catalog's `Attribute`. */
  method FindAttribute(tables: Tables, vendor: Vendor, attribute: string) returns (result: Option<bool>)
    ensures result == Lookup(tables, vendor, attribute)
  {
    if NormalizeAttribute(tables, vendor.name, attribute).None? {
      return None;
    }
    result := SearchOrStop(Normaliser(tables, vendor.name), Spelling(vendor, Sought(tables, vendor, attribute)),
                           vendor.attributes);
  }

  /** A lookup that runs to its end answers as the coverage model's search of the catalog does. */
  lemma {:induction false} LookupIsSearch(tables: Tables, vendors: seq<Vendor>, vendorName: string, vendor: Vendor,
                                          attribute: string)
    requires C.VendorByName(NamesFrom(tables), vendors, vendorName) == Some(vendor)
    requires Lookup(tables, vendor, attribute).Some?
    ensures Lookup(tables, vendor, attribute).value <==>
            C.HasAttribute(NamesFrom(tables), vendors, vendorName, attribute)
  {
    var f, key := Normaliser(tables, vendor.name), Sought(tables, vendor, attribute);
    var attributes := vendor.attributes;
    forall i | 0 <= i < |attributes| && f(attributes[i]).Some?
      ensures Spelling(vendor, key)(f(attributes[i]).value) <==>
              C.SpelledAs(NamesFrom(tables), vendor, attributes[i], key)
    {
    }
    OutcomeIsHit(f, Spelling(vendor, key), attributes);
    assert forall i :: 0 <= i < |attributes| ==> attributes[i] in attributes;
  }

  lemma {:induction false} OutcomeIsHit<T, U>(f: T -> Option<U>, hit: U -> bool, xs: seq<T>)
    requires SearchOutcome(f, hit, xs).Some?
    ensures SearchOutcome(f, hit, xs).value <==> exists i :: 0 <= i < |xs| && f(xs[i]).Some? && hit(f(xs[i]).value)
    ensures !SearchOutcome(f, hit, xs).value ==> forall i :: 0 <= i < |xs| ==> f(xs[i]).Some?
  {
    var k := FirstSuch((x: T) => f(x).None? || hit(f(x).value), xs);
    assert k < |xs| ==> f(xs[k]).Some? && hit(f(xs[k]).value);
  }

  /** For a vendor name, every lookup in every dictionary runs to its end exactly when the canonical form of
      the name is prefix safe. */
  lemma {:induction false} LookupDefinedExactly(tables: Tables, name: string)
    ensures (forall vendor: Vendor, attribute :: vendor.name == name ==> Lookup(tables, vendor, attribute).Some?)
       <==> PrefixSafe(NormalizeVendor(tables.vendors, name))
  {
    if PrefixSafe(NormalizeVendor(tables.vendors, name)) {
      forall vendor: Vendor, attribute | vendor.name == name ensures Lookup(tables, vendor, attribute).Some? {
        SafeLookup(tables, vendor, attribute);
      }
    } else {
      UnsafeSlice(tables.vendors, name);
      var attribute := ReleaseKey(NormalizeVendor(tables.vendors, name)) + "-";
      AttributeDefined(tables, name, attribute);
      assert Lookup(tables, Vendor(name, 0, [], []), attribute).None?;
    }
  }

  lemma {:induction false} SafeLookup(tables: Tables, vendor: Vendor, attribute: string)
    requires PrefixSafe(NormalizeVendor(tables.vendors, vendor.name))
    ensures Lookup(tables, vendor, attribute).Some?
  {
    forall name ensures NormalizeAttribute(tables, vendor.name, name).Some? {
      SafeSlice(tables.vendors, name, vendor.name);
      AttributeDefined(tables, vendor.name, name);
    }
  }

  /** The concrete failure: a loaded vendor `a__b` that declares `a-b-` stops every search that does not
      find its attribute before. */
  lemma {:induction false} UnderscoreLookupFails(tables: Tables, kind: string, attribute: string)
    requires Unaliased(tables.vendors, "a__b")
    ensures Lookup(tables, Vendor("a__b", 0, [], [Attribute("a-b-", 1, "", kind, [], [])]), attribute).None?
  {
    var declared := [Attribute("a-b-", 1, "", kind, [], [])];
    UnderscoresOverrun(tables.vendors);
    AttributeDefined(tables, "a__b", "a-b-");
    assert Normaliser(tables, "a__b")(declared[0]).None?;
  }
}

/** The name normalisers of a release profile as the registry, the intake and the coverage search call
    them, and for which names they are defined (configs/dictionary_release_profiles.go). */
module ProfileNames {
  import opened Wrappers
  import opened Dictionary
  import opened RegistryModel
  import opened ReleaseKeys

  /** The normalisers of a release profile as total functions; where the code would slice out of bounds
      the value is arbitrary. */
  function NamesFrom(tables: Tables): Names {
    Names((vendor: string) => NormalizeVendor(tables.vendors, vendor),
          (vendor: string, attribute: string) => match NormalizeAttribute(tables, vendor, attribute)
            case Some(name) => name case None => "")
  }

  /** The prefix slice is in bounds for every attribute of a vendor. */
  predicate NamesDefined(tables: Tables, canonical: string, attributes: seq<Attribute>) {
    forall i :: 0 <= i < |attributes| ==> Sliceable(tables, canonical, attributes[i])
  }

  predicate Sliceable(tables: Tables, canonical: string, a: Attribute) {
    TrimAttributePrefix(tables.vendors, a.name, canonical).Some?
  }

  function Normaliser(tables: Tables, canonical: string): Attribute -> Option<string> {
    (a: Attribute) => NormalizeAttribute(tables, canonical, a.name)
  }

  lemma {:induction false} NormaliserDefined(tables: Tables, canonical: string, attributes: seq<Attribute>)
    ensures (forall i :: 0 <= i < |attributes| ==> Normaliser(tables, canonical)(attributes[i]).Some?) <==>
            NamesDefined(tables, canonical, attributes)
  {
    forall i | 0 <= i < |attributes| ensures Normaliser(tables, canonical)(attributes[i]).Some? <==>
      Sliceable(tables, canonical, attributes[i]) {
      AttributeDefined(tables, canonical, attributes[i].name);
    }
  }

  /** What a caller can check beforehand: every attribute name of a vendor is handled exactly when the
      canonical name is prefix safe. */
  lemma {:induction false} DefinedExactly(tables: Tables, canonical: string)
    ensures (forall attributes :: NamesDefined(tables, canonical, attributes)) <==>
            PrefixSafe(NormalizeVendor(tables.vendors, canonical))
  {
    if PrefixSafe(NormalizeVendor(tables.vendors, canonical)) {
      forall a ensures Sliceable(tables, canonical, a) {
        SafeSlice(tables.vendors, a.name, canonical);
      }
    } else {
      UnsafeSlice(tables.vendors, canonical);
      var a := Attribute(ReleaseKey(NormalizeVendor(tables.vendors, canonical)) + "-", 0, "", "", [], []);
      assert !Sliceable(tables, canonical, a);
      OneUndefined(tables, canonical, a);
    }
  }

  lemma {:induction false} OneUndefined(tables: Tables, canonical: string, a: Attribute)
    requires !Sliceable(tables, canonical, a)
    ensures !NamesDefined(tables, canonical, [a])
  {
    assert [a][0] == a;
  }
}

/** The algebra of catalog merging: flattening (hence associativity), identity and idempotence, and
    the exact class of options for which they hold. */
module CatalogMergeLaws {
  import opened Text
  import opened Sequences
  import opened Dictionary
  import opened KeyedMerge
  import opened CatalogMerge

  // ----- option normalisation

  /** Normalising again would change nothing; fails for an option that still ends in a comma, as `a,,`. */
  predicate Stable(option: string) {
    NormalizeOption(NormalizeOption(option)) == NormalizeOption(option)
  }

  predicate StableOptions(options: seq<string>) {
    forall i :: 0 <= i < |options| ==> Stable(options[i])
  }

  /** Already normalised. */
  predicate Normal(options: seq<string>) {
    forall i :: 0 <= i < |options| ==> options[i] != "" && NormalizeOption(options[i]) == options[i]
  }

  lemma {:induction false} NormalFixed(options: seq<string>)
    requires Normal(options)
    ensures NormalizeOptions(options) == options
  {
    if options != [] {
      NormalFixed(options[1..]);
    }
  }

  lemma {:induction false} NormalizeGivesNormal(options: seq<string>)
    requires StableOptions(options)
    ensures Normal(NormalizeOptions(options))
  {
    if options != [] {
      NormalizeGivesNormal(options[1..]);
    }
  }

  lemma {:induction false} NormalIsStable(options: seq<string>)
    requires Normal(options)
    ensures StableOptions(options)
  {
  }

  lemma {:induction false} LowerNormalizeOption(option: string)
    ensures NormalizeOption(Lower(option)) == Lower(NormalizeOption(option))
  {
    assert TrimComma(Lower(option)) == Lower(TrimComma(option));
    LowerTrim(TrimComma(option));
  }

  lemma {:induction false} NormalizeMembers(options: seq<string>, o: string)
    requires o in options && NormalizeOption(o) != ""
    ensures NormalizeOption(o) in NormalizeOptions(options)
  {
    if o != options[0] {
      NormalizeMembers(options[1..], o);
    }
  }

  /** A normalised option that clashes with a raw one also clashes with the raw one's normal form. */
  lemma {:induction false} RawClash(raw: seq<string>, v: string)
    requires Lower(v) in Keys(Lower, raw) && v != "" && NormalizeOption(v) == v
    ensures Lower(v) in Keys(Lower, NormalizeOptions(raw))
  {
    var r :| r in raw && Lower(r) == Lower(v);
    LowerNormalizeOption(r);
    LowerNormalizeOption(v);
    assert Lower(NormalizeOption(r)) == Lower(v);
    NormalizeMembers(raw, r);
    assert NormalizeOption(r) in NormalizeOptions(raw);
  }

  lemma {:induction false} DistinctRelevant<T, K>(key: T -> K, s: set<K>, t: set<K>, xs: seq<T>)
    requires s * Keys(key, xs) == t * Keys(key, xs)
    ensures Distinct(key, s, xs) == Distinct(key, t, xs)
    decreases |xs|
  {
    if xs != [] {
      var k := key(xs[0]);
      assert xs[0] in xs && k in Keys(key, xs);
      assert k in s * Keys(key, xs) <==> k in t * Keys(key, xs);
      assert Keys(key, xs[1..]) <= Keys(key, xs);
      assert forall x :: x in Keys(key, xs[1..]) && x in s ==> x in t * Keys(key, xs);
      assert forall x :: x in Keys(key, xs[1..]) && x in t ==> x in s * Keys(key, xs);
      if k in s {
        DistinctRelevant(key, s, t, xs[1..]);
      } else {
        DistinctRelevant(key, s + {k}, t + {k}, xs[1..]);
      }
    }
  }

  lemma {:induction false} ExtendAssociative<T, K>(key: T -> K, z: seq<T>, x: seq<T>, v: seq<T>)
    ensures Extend(key, Extend(key, z, x), v) == z + Distinct(key, Keys(key, z), x + v)
    ensures Extend(key, Extend(key, z, x), v) == Extend(key, z, Extend(key, x, v))
  {
    var kz, kx := Keys(key, z), Keys(key, x);
    DistinctKeys(key, kz, x);
    KeysConcat(key, z, Distinct(key, kz, x));
    assert Keys(key, Extend(key, z, x)) == kz + kx;
    DistinctConcat(key, kz, x, v);
    assert (z + Distinct(key, kz, x)) + Distinct(key, kz + kx, v)
           == z + (Distinct(key, kz, x) + Distinct(key, kz + kx, v));
    DistinctConcat(key, kz, x, Distinct(key, kx, v));
    DistinctDistinct(key, kz + kx, kx, v);
  }

  /** Merging options is associative when the inner lists are stable. */
  lemma {:induction false} OptionsAssociative(z: seq<string>, x: seq<string>, v: seq<string>)
    requires StableOptions(v)
    ensures MergeOptions(MergeOptions(z, x), v) == MergeOptions(z, MergeOptions(x, v))
  {
    var nx, nv := NormalizeOptions(x), NormalizeOptions(v);
    var kz, kx, kn := Keys(Lower, z), Keys(Lower, x), Keys(Lower, nx);
    NormalizeGivesNormal(v);
    var inner := Distinct(Lower, kx, nv);
    assert NormalizeOptions(MergeOptions(x, v)) == nx + inner by {
      NormalizeConcat(x, inner);
      DistinctKeys(Lower, kx, nv);
      assert Normal(inner) by {
        forall i | 0 <= i < |inner| ensures inner[i] != "" && NormalizeOption(inner[i]) == inner[i] {
          assert inner[i] in inner && inner[i] in nv;
        }
      }
      NormalFixed(inner);
    }
    ExtendAssociative(Lower, z, nx, nv);
    DistinctConcat(Lower, kz, nx, nv);
    DistinctConcat(Lower, kz, nx, inner);
    assert Distinct(Lower, kz + kn, inner) == Distinct(Lower, kz + kn, nv) by {
      var relevant := kx * Keys(Lower, nv);
      DistinctRelevant(Lower, kx, relevant, nv);
      forall k | k in relevant ensures k in kn {
        var e :| e in nv && Lower(e) == k;
        var i :| 0 <= i < |nv| && nv[i] == e;
        RawClash(x, e);
      }
      DistinctDistinct(Lower, kz + kn, relevant, nv);
    }
  }

  lemma {:induction false} MergeOptionsStable(x: seq<string>, v: seq<string>)
    requires StableOptions(x) && StableOptions(v)
    ensures StableOptions(MergeOptions(x, v))
    ensures Normal(x) ==> Normal(MergeOptions(x, v))
  {
    var nv := NormalizeOptions(v);
    NormalizeGivesNormal(v);
    var added := Distinct(Lower, Keys(Lower, x), nv);
    DistinctKeys(Lower, Keys(Lower, x), nv);
    forall i | 0 <= i < |added| ensures added[i] != "" && NormalizeOption(added[i]) == added[i] {
      assert added[i] in added && added[i] in nv;
    }
  }

  // ----- the two levels are lawful

  predicate StableAttribute(a: Attribute) {
    StableOptions(a.options)
  }

  lemma {:induction false} CombineAttributesAssociative(z: Attribute, x: Attribute, v: Attribute)
    requires StableAttribute(v)
    ensures CombineAttributes(CombineAttributes(z, x), v) == CombineAttributes(z, CombineAttributes(x, v))
  {
    OptionsAssociative(z.options, x.options, v.options);
    ExtendAssociative(ValueKey, z.values, x.values, v.values);
  }

  lemma {:induction false} AttributesLawful()
    ensures Lawful(ATTRIBUTE_RULES, StableAttribute, StableAttribute)
  {
    var r := ATTRIBUTE_RULES;
    forall z, x, v | StableAttribute(v) ensures r.combine(r.combine(z, x), v) == r.combine(z, r.combine(x, v)) {
      CombineAttributesAssociative(z, x, v);
    }
    forall x, v | StableAttribute(x) && StableAttribute(v) ensures StableAttribute(r.combine(x, v)) {
      MergeOptionsStable(x.options, v.options);
    }
  }

  predicate CleanVendor(v: Vendor) {
    StableOptions(v.options) && forall i :: 0 <= i < |v.attributes| ==> StableAttribute(v.attributes[i])
  }

  /** A vendor in finished form. */
  ghost predicate NormalVendor(v: Vendor) {
    && CleanEnds(IsSpace, v.name) && Normal(v.options)
    && Finished(ATTRIBUTE_RULES, StableAttribute, v.attributes)
  }

  lemma {:induction false} InsertVendorNormal(v: Vendor)
    requires CleanVendor(v)
    ensures NormalVendor(InsertVendor(v))
  {
    AttributesLawful();
    TrimTrim(v.name);
    NormalizeGivesNormal(v.options);
    FoldFinished(ATTRIBUTE_RULES, StableAttribute, StableAttribute, [], v.attributes);
  }

  lemma {:induction false} NormalVendorFixed(v: Vendor)
    requires NormalVendor(v)
    ensures CleanVendor(v) && InsertVendor(v) == v
  {
    AttributesLawful();
    NormalFixed(v.options);
    StripFixed(IsSpace, v.name);
    FoldIdentity(ATTRIBUTE_RULES, StableAttribute, StableAttribute, v.attributes);
  }

  lemma {:induction false} CombineVendorsNormal(x: Vendor, v: Vendor)
    requires NormalVendor(x) && CleanVendor(v)
    ensures NormalVendor(CombineVendors(x, v))
  {
    AttributesLawful();
    NormalIsStable(x.options);
    MergeOptionsStable(x.options, v.options);
    FoldFinished(ATTRIBUTE_RULES, StableAttribute, StableAttribute, x.attributes, v.attributes);
  }

  lemma {:induction false} CombineInserted(z: Vendor, v: Vendor)
    requires CleanVendor(v)
    ensures CombineVendors(z, InsertVendor(v)) == CombineVendors(z, v)
  {
    AttributesLawful();
    NormalizeGivesNormal(v.options);
    NormalFixed(NormalizeOptions(v.options));
    FoldFold(ATTRIBUTE_RULES, StableAttribute, StableAttribute, z.attributes, v.attributes);
  }

  lemma {:induction false} MergeAttributesAssociative(z: seq<Attribute>, x: seq<Attribute>, v: seq<Attribute>)
    requires Finished(ATTRIBUTE_RULES, StableAttribute, x) && Each(StableAttribute, v)
    ensures MergeAttributes(MergeAttributes(z, x), v) == MergeAttributes(z, MergeAttributes(x, v))
  {
    AttributesLawful();
    FoldIdentity(ATTRIBUTE_RULES, StableAttribute, StableAttribute, x);
    FoldConcat(ATTRIBUTE_RULES, [], x, v);
    FoldConcat(ATTRIBUTE_RULES, z, x, v);
    FoldFold(ATTRIBUTE_RULES, StableAttribute, StableAttribute, z, x + v);
  }

  lemma {:induction false} CombineVendorsAssociative(z: Vendor, x: Vendor, v: Vendor)
    requires NormalVendor(x) && CleanVendor(v)
    ensures CombineVendors(CombineVendors(z, x), v) == CombineVendors(z, CombineVendors(x, v))
  {
    OptionsAssociative(z.options, x.options, v.options);
    MergeAttributesAssociative(z.attributes, x.attributes, v.attributes);
  }

  lemma {:induction false} VendorsLawful()
    ensures Lawful(VENDOR_RULES, CleanVendor, (v: Vendor) => NormalVendor(v))
  {
    var r := VENDOR_RULES;
    forall v ensures r.key(r.insert(v)) == r.key(v) {
      TrimTrim(v.name);
    }
    forall v | CleanVendor(v) ensures NormalVendor(r.insert(v)) {
      InsertVendorNormal(v);
    }
    forall v | NormalVendor(v) ensures CleanVendor(v) && r.insert(v) == v {
      NormalVendorFixed(v);
    }
    forall x, v | NormalVendor(x) && CleanVendor(v) ensures NormalVendor(r.combine(x, v)) {
      CombineVendorsNormal(x, v);
    }
    forall z, v | CleanVendor(v) ensures r.combine(z, r.insert(v)) == r.combine(z, v) {
      CombineInserted(z, v);
    }
    forall z, x, v | NormalVendor(x) && CleanVendor(v)
      ensures r.combine(r.combine(z, x), v) == r.combine(z, r.combine(x, v)) {
      CombineVendorsAssociative(z, x, v);
    }
  }

  // ----- catalogs

  predicate CleanCatalog(c: Catalog) {
    forall i :: 0 <= i < |c.vendors| ==> CleanVendor(c.vendors[i])
  }

  ghost predicate AllClean(catalogs: seq<Catalog>) {
    forall i :: 0 <= i < |catalogs| ==> CleanCatalog(catalogs[i])
  }

  lemma {:induction false} AllVendorsClean(catalogs: seq<Catalog>)
    requires AllClean(catalogs)
    ensures Each(CleanVendor, AllVendors(catalogs))
  {
    if catalogs != [] {
      AllVendorsClean(catalogs[1..]);
    }
  }

  /** The flattening law: a merged catalog anywhere in a merge can be replaced by what it was merged
      from. With one- and two-element lists this is associativity. */
  lemma {:induction false} MergeFlattens(s: string, t: string, xs: seq<Catalog>, ys: seq<Catalog>, zs: seq<Catalog>)
    requires AllClean(ys)
    ensures Merge(s, xs + [Merge(t, ys)] + zs) == Merge(s, xs + ys + zs)
  {
    var m := Merge(t, ys);
    AllConcat(xs + [m], zs);
    AllConcat(xs, [m]);
    AllOne(m);
    AllConcat(xs + ys, zs);
    AllConcat(xs, ys);
    var a, b, c := AllVendors(xs), AllVendors(ys), AllVendors(zs);
    VendorsLawful();
    AllVendorsClean(ys);
    FoldConcat(VENDOR_RULES, [], a + m.vendors, c);
    FoldConcat(VENDOR_RULES, [], a, m.vendors);
    FoldConcat(VENDOR_RULES, [], a + b, c);
    FoldConcat(VENDOR_RULES, [], a, b);
    FoldFold(VENDOR_RULES, CleanVendor, (v: Vendor) => NormalVendor(v), Fold(VENDOR_RULES, [], a), b);
  }

  lemma {:induction false} MergeAssociative(s: string, a: Catalog, b: Catalog, c: Catalog)
    requires CleanCatalog(a) && CleanCatalog(b) && CleanCatalog(c)
    ensures Merge(s, [Merge(s, [a, b]), c]) == Merge(s, [a, b, c]) == Merge(s, [a, Merge(s, [b, c])])
  {
    MergeLeft(s, a, b, c);
    MergeRight(s, a, b, c);
  }

  lemma {:induction false} Grouped(x: Catalog, y: Catalog, z: Catalog)
    ensures [] + [x] + [y] == [x, y] == [x] + [y] + [] && [] + [x, y] + [z] == [x, y, z] == [x] + [y, z] + []
  {
  }

  lemma {:induction false} MergeLeft(s: string, a: Catalog, b: Catalog, c: Catalog)
    requires CleanCatalog(a) && CleanCatalog(b)
    ensures Merge(s, [Merge(s, [a, b]), c]) == Merge(s, [a, b, c])
  {
    MergeFlattens(s, s, [], [a, b], [c]);
    Grouped(Merge(s, [a, b]), c, c);
    Grouped(a, b, c);
  }

  lemma {:induction false} MergeRight(s: string, a: Catalog, b: Catalog, c: Catalog)
    requires CleanCatalog(b) && CleanCatalog(c)
    ensures Merge(s, [a, Merge(s, [b, c])]) == Merge(s, [a, b, c])
  {
    MergeFlattens(s, s, [a], [b, c], []);
    Grouped(a, Merge(s, [b, c]), c);
    Grouped(a, b, c);
  }

  ghost predicate DistinctAttributes(v: Vendor) {
    UniqueKeys(AttributeKey, v.attributes)
  }

  /** Whatever is merged, vendor names come out distinct ignoring case and space, and so do the
      attribute names of each vendor. */
  lemma {:induction false} MergedNamesDiffer(s: string, catalogs: seq<Catalog>)
    ensures var merged := Merge(s, catalogs);
            UniqueKeys(VendorKey, merged.vendors) && Each((v: Vendor) => DistinctAttributes(v), merged.vendors)
  {
    var r := VENDOR_RULES;
    forall v ensures r.key(r.insert(v)) == r.key(v) && DistinctAttributes(r.insert(v)) {
      TrimTrim(v.name);
      FoldUnique(ATTRIBUTE_RULES, [], v.attributes);
    }
    forall x, y | DistinctAttributes(x) ensures DistinctAttributes(r.combine(x, y)) {
      FoldUnique(ATTRIBUTE_RULES, x.attributes, y.attributes);
    }
    FoldUnique(r, [], AllVendors(catalogs));
    FoldEach(r, (v: Vendor) => DistinctAttributes(v), (v: Vendor) => true, [], AllVendors(catalogs));
  }

  /** Catalogs in finished form: what merging clean catalogs produces. */
  ghost predicate NormalCatalog(c: Catalog) {
    Finished(VENDOR_RULES, (v: Vendor) => NormalVendor(v), c.vendors)
  }

  lemma {:induction false} MergeIsNormal(s: string, catalogs: seq<Catalog>)
    requires AllClean(catalogs)
    ensures NormalCatalog(Merge(s, catalogs))
  {
    VendorsLawful();
    AllVendorsClean(catalogs);
    FoldFinished(VENDOR_RULES, CleanVendor, (v: Vendor) => NormalVendor(v), [], AllVendors(catalogs));
  }

  const EMPTY_CATALOG := Catalog("", [], [], [])

  /** The empty catalog is the identity on finished catalogs, on either side. */
  lemma {:induction false} MergeIdentity(c: Catalog)
    requires NormalCatalog(c) && Trim(c.source) == c.source
    ensures Merge(c.source, [c, EMPTY_CATALOG]) == c == Merge(c.source, [EMPTY_CATALOG, c])
  {
    VendorsLawful();
    FoldIdentity(VENDOR_RULES, CleanVendor, (v: Vendor) => NormalVendor(v), c.vendors);
    AllOne(c);
    AllOne(EMPTY_CATALOG);
    AllConcat([c], [EMPTY_CATALOG]);
    AllConcat([EMPTY_CATALOG], [c]);
    assert [c] + [EMPTY_CATALOG] == [c, EMPTY_CATALOG] && [EMPTY_CATALOG] + [c] == [EMPTY_CATALOG, c];
    assert c.vendors + [] == c.vendors == [] + c.vendors;
    assert c.values + [] == c.values == [] + c.values && c.warnings + [] == c.warnings == [] + c.warnings;
  }

  // ----- merging a catalog with itself

  /** Whatever normalising an option leaves is among the options already, ignoring case. */
  predicate SelfAbsorbing(options: seq<string>) {
    forall o <- options :: NormalizeOption(o) == "" || exists p <- options :: Lower(p) == Lower(NormalizeOption(o))
  }

  lemma {:induction false} ExtendAbsorbs<T, K>(key: T -> K, xs: seq<T>, ys: seq<T>)
    ensures Extend(key, xs, ys) == xs <==> Keys(key, ys) <= Keys(key, xs)
  {
    DistinctKeys(key, Keys(key, xs), ys);
    var added := Distinct(key, Keys(key, xs), ys);
    if Keys(key, ys) <= Keys(key, xs) {
      DistinctNothing(key, Keys(key, xs), ys);
    } else {
      var k :| k in Keys(key, ys) && k !in Keys(key, xs);
      assert k in Keys(key, added);
      assert |xs + added| > |xs|;
    }
  }

  lemma {:induction false} NormalFormsOf(options: seq<string>, n: string)
    ensures n in NormalizeOptions(options) <==> n != "" && exists o <- options :: NormalizeOption(o) == n
  {
    if options != [] {
      NormalFormsOf(options[1..], n);
      assert forall o :: o in options <==> o == options[0] || o in options[1..];
    }
  }

  lemma {:induction false} OptionsAbsorb(options: seq<string>)
    ensures MergeOptions(options, options) == options <==> SelfAbsorbing(options)
  {
    var normal := NormalizeOptions(options);
    ExtendAbsorbs(Lower, options, normal);
    if Keys(Lower, normal) <= Keys(Lower, options) {
      forall o | o in options && NormalizeOption(o) != ""
        ensures exists p <- options :: Lower(p) == Lower(NormalizeOption(o)) {
        NormalFormsOf(options, NormalizeOption(o));
        assert Lower(NormalizeOption(o)) in Keys(Lower, normal);
      }
    }
    if SelfAbsorbing(options) {
      forall n | n in normal ensures Lower(n) in Keys(Lower, options) {
        NormalFormsOf(options, n);
      }
    }
  }

  lemma {:induction false} AttributeAbsorbs(a: Attribute)
    ensures CombineAttributes(a, a) == a <==> SelfAbsorbing(a.options)
  {
    OptionsAbsorb(a.options);
    ExtendAbsorbs(ValueKey, a.values, a.values);
  }

  ghost predicate AttributesAbsorb(v: Vendor) {
    forall a :: 0 <= a < |v.attributes| ==> SelfAbsorbing(v.attributes[a].options)
  }

  lemma {:induction false} RulesKeepKeys()
    ensures KeepsKeys(ATTRIBUTE_RULES) && KeepsKeys(VENDOR_RULES)
  {
    forall v ensures VendorKey(InsertVendor(v)) == VendorKey(v) {
      TrimTrim(v.name);
    }
  }

  lemma {:induction false} VendorAbsorbs(v: Vendor)
    requires NormalVendor(v)
    ensures CombineVendors(v, v) == v <==> AttributesAbsorb(v)
  {
    NormalFixed(v.options);
    ExtendAbsorbs(Lower, v.options, v.options);
    RulesKeepKeys();
    forall a | 0 <= a < |v.attributes|
      ensures CombineAttributes(v.attributes[a], v.attributes[a]) == v.attributes[a] <==>
              SelfAbsorbing(v.attributes[a].options)
    {
      AttributeAbsorbs(v.attributes[a]);
    }
    FoldAbsorbs(ATTRIBUTE_RULES, StableAttribute, v.attributes);
  }

  /** Merging a finished catalog with itself leaves its vendors unchanged exactly when, for every
      attribute, the normal forms of its options are among its options already. */
  lemma {:induction false} MergeWithItself(s: string, c: Catalog)
    requires NormalCatalog(c)
    ensures Merge(s, [c, c]).vendors == c.vendors <==> forall v :: 0 <= v < |c.vendors| ==>
            AttributesAbsorb(c.vendors[v])
  {
    VendorsLawful();
    AllOne(c);
    AllConcat([c], [c]);
    assert [c] + [c] == [c, c];
    FoldConcat(VENDOR_RULES, [], c.vendors, c.vendors);
    FoldIdentity(VENDOR_RULES, CleanVendor, (v: Vendor) => NormalVendor(v), c.vendors);
    SelfFold(c);
  }

  lemma {:induction false} SelfFold(c: Catalog)
    requires NormalCatalog(c)
    ensures Fold(VENDOR_RULES, c.vendors, c.vendors) == c.vendors <==> forall v :: 0 <= v < |c.vendors| ==>
            AttributesAbsorb(c.vendors[v])
  {
    RulesKeepKeys();
    FoldAbsorbs(VENDOR_RULES, (v: Vendor) => NormalVendor(v), c.vendors);
    forall v | 0 <= v < |c.vendors| ensures CombineVendors(c.vendors[v], c.vendors[v]) == c.vendors[v] <==>
      AttributesAbsorb(c.vendors[v]) {
      VendorAbsorbs(c.vendors[v]);
    }
  }

  predicate NormalAttribute(a: Attribute) {
    Normal(a.options)
  }

  predicate NormalAttributes(v: Vendor) {
    forall a :: 0 <= a < |v.attributes| ==> NormalAttribute(v.attributes[a])
  }

  /** The options of every attribute are already normalised. */
  predicate NormalOptions(c: Catalog) {
    forall v :: 0 <= v < |c.vendors| ==> NormalAttributes(c.vendors[v])
  }

  lemma {:induction false} FoldNormalAttributes(acc: seq<Attribute>, xs: seq<Attribute>)
    requires Each(NormalAttribute, acc) && Each(NormalAttribute, xs)
    ensures Each(NormalAttribute, MergeAttributes(acc, xs))
  {
    forall x, y | NormalAttribute(x) && NormalAttribute(y) ensures NormalAttribute(CombineAttributes(x, y)) {
      NormalIsStable(x.options);
      NormalIsStable(y.options);
      MergeOptionsStable(x.options, y.options);
    }
    FoldEach(ATTRIBUTE_RULES, NormalAttribute, NormalAttribute, acc, xs);
  }

  lemma {:induction false} AllVendorsNormal(catalogs: seq<Catalog>)
    requires forall i :: 0 <= i < |catalogs| ==> NormalOptions(catalogs[i])
    ensures Each(NormalAttributes, AllVendors(catalogs))
  {
    if catalogs != [] {
      AllVendorsNormal(catalogs[1..]);
    }
  }

  /** Merging keeps attribute options normalised. */
  lemma {:induction false} MergeKeepsNormalOptions(s: string, catalogs: seq<Catalog>)
    requires forall i :: 0 <= i < |catalogs| ==> NormalOptions(catalogs[i])
    ensures NormalOptions(Merge(s, catalogs))
  {
    AllVendorsNormal(catalogs);
    forall v | NormalAttributes(v) ensures NormalAttributes(InsertVendor(v)) {
      FoldNormalAttributes([], v.attributes);
    }
    forall x, y | NormalAttributes(x) && NormalAttributes(y) ensures NormalAttributes(CombineVendors(x, y)) {
      FoldNormalAttributes(x.attributes, y.attributes);
    }
    FoldEach(VENDOR_RULES, NormalAttributes, NormalAttributes, [], AllVendors(catalogs));
  }

  lemma {:induction false} NormalAbsorbs(v: Vendor)
    requires NormalAttributes(v)
    ensures AttributesAbsorb(v)
  {
    forall a | 0 <= a < |v.attributes| ensures SelfAbsorbing(v.attributes[a].options) {
      assert NormalAttribute(v.attributes[a]);
    }
  }

  /** So merging again what was merged from clean catalogs with normalised options changes no vendor. */
  lemma {:induction false} MergedAbsorbsItself(s: string, catalogs: seq<Catalog>)
    requires AllClean(catalogs) && forall i :: 0 <= i < |catalogs| ==> NormalOptions(catalogs[i])
    ensures var merged := Merge(s, catalogs); Merge(s, [merged, merged]).vendors == merged.vendors
  {
    var merged := Merge(s, catalogs);
    MergeIsNormal(s, catalogs);
    MergeKeepsNormalOptions(s, catalogs);
    MergeWithItself(s, merged);
    forall v | 0 <= v < |merged.vendors| ensures AttributesAbsorb(merged.vendors[v]) {
      NormalAbsorbs(merged.vendors[v]);
    }
  }

  // ----- the condition is exact

  ghost predicate OptionsWithin(c: Catalog, options: set<string>) {
    forall v <- c.vendors ::
      && (forall o <- v.options :: o in options)
      && (forall a <- v.attributes :: forall o <- a.options :: o in options)
  }

  ghost predicate Associates(a: Catalog, b: Catalog, c: Catalog) {
    Merge("", [a, Merge("", [b, c])]) == Merge("", [a, b, c])
  }

  ghost predicate AssociatesOver(options: set<string>) {
    forall a, b, c :: OptionsWithin(a, options) && OptionsWithin(b, options) && OptionsWithin(c, options) ==>
      Associates(a, b, c)
  }

  lemma {:induction false} WithinStableIsClean(c: Catalog, options: set<string>)
    requires OptionsWithin(c, options) && forall o <- options :: Stable(o)
    ensures CleanCatalog(c)
  {
    forall i | 0 <= i < |c.vendors| ensures CleanVendor(c.vendors[i]) {
      var v := c.vendors[i];
      assert v in c.vendors;
      assert forall k :: 0 <= k < |v.options| ==> v.options[k] in v.options;
      forall k | 0 <= k < |v.attributes| ensures StableAttribute(v.attributes[k]) {
        var a := v.attributes[k];
        assert a in v.attributes;
        assert forall m :: 0 <= m < |a.options| ==> a.options[m] in a.options;
      }
    }
  }

  /** A catalog of one vendor with one attribute that carries the given options. */
  function Probe(options: seq<string>): Catalog {
    Catalog("", [ProbeVendor(options)], [], [])
  }

  function ProbeVendor(options: seq<string>): Vendor {
    Vendor("v", 1, [], [ProbeAttribute(options)])
  }

  function ProbeAttribute(options: seq<string>): Attribute {
    Attribute("p", 1, "", "t", options, [])
  }

  lemma {:induction false} StepFresh<T>(r: Rules<T>, x: T)
    requires r.key(x) != ""
    ensures Step(r, [], x) == [r.insert(x)]
  {
  }

  lemma {:induction false} StepSame<T>(r: Rules<T>, x: T, y: T)
    requires r.key(x) == r.key(y) != ""
    ensures Step(r, [x], y) == [r.combine(x, y)]
  {
  }

  lemma {:induction false} ProbeKeys(options: seq<string>)
    ensures AttributeKey(ProbeAttribute(options)) != "" && VendorKey(ProbeVendor(options)) != "" && Trim("v") == "v"
  {
    StripFixed(IsSpace, "v");
    StripFixed(IsSpace, "p");
  }

  lemma {:induction false} ProbeCombine(x: seq<string>, y: seq<string>)
    ensures InsertVendor(ProbeVendor(x)) == ProbeVendor(x)
    ensures CombineVendors(ProbeVendor(x), ProbeVendor(y)) == ProbeVendor(MergeOptions(x, y))
  {
    ProbeKeys(x);
    ProbeKeys(y);
    FoldOne(ATTRIBUTE_RULES, [], ProbeAttribute(x));
    StepFresh(ATTRIBUTE_RULES, ProbeAttribute(x));
    FoldOne(ATTRIBUTE_RULES, [ProbeAttribute(x)], ProbeAttribute(y));
    StepSame(ATTRIBUTE_RULES, ProbeAttribute(x), ProbeAttribute(y));
    assert MergeValues([], []) == [] && MergeOptions([], []) == [];
  }

  lemma {:induction false} ProbeMerge(x: seq<string>, y: seq<string>)
    ensures Merge("", [Probe(x), Probe(y)]) == Probe(MergeOptions(x, y))
  {
    ProbeKeys(x);
    ProbeKeys(y);
    ProbeCombine(x, y);
    AllOne(Probe(x));
    AllOne(Probe(y));
    AllConcat([Probe(x)], [Probe(y)]);
    assert [Probe(x)] + [Probe(y)] == [Probe(x), Probe(y)];
    FoldSnoc(VENDOR_RULES, [], [ProbeVendor(x)], ProbeVendor(y));
    FoldOne(VENDOR_RULES, [], ProbeVendor(x));
    StepFresh(VENDOR_RULES, ProbeVendor(x));
    StepSame(VENDOR_RULES, ProbeVendor(x), ProbeVendor(y));
  }

  lemma {:induction false} ProbeMergeThree(x: seq<string>, y: seq<string>, z: seq<string>)
    ensures Merge("", [Probe(x), Probe(y), Probe(z)]) == Probe(MergeOptions(MergeOptions(x, y), z))
  {
    ProbeMerge(x, y);
    var xy := MergeOptions(x, y);
    ProbeCombine(xy, z);
    ProbeKeys(xy);
    ProbeKeys(z);
    AllOne(Probe(z));
    AllConcat([Probe(x), Probe(y)], [Probe(z)]);
    assert [Probe(x), Probe(y)] + [Probe(z)] == [Probe(x), Probe(y), Probe(z)];
    FoldSnoc(VENDOR_RULES, [], AllVendors([Probe(x), Probe(y)]), ProbeVendor(z));
    StepSame(VENDOR_RULES, ProbeVendor(xy), ProbeVendor(z));
  }

  lemma {:induction false} MergeOneOption(o: string)
    ensures MergeOptions([], [o]) == if NormalizeOption(o) == "" then [] else [NormalizeOption(o)]
  {
    assert [o][1..] == [];
    assert NormalizeOptions([]) == [];
    var n := NormalizeOptions([o]);
    assert n == if NormalizeOption(o) == "" then [] else [NormalizeOption(o)];
    if n != [] {
      DistinctCons(Lower, {}, n[0], []);
      assert n == [n[0]] + [];
    }
    assert Keys(Lower, []) == {};
  }

  /** On catalogs that carry a single option, right-nesting a merge is harmless exactly when the option is stable. */
  lemma {:induction false} ProbeIsExact(o: string)
    ensures Associates(Probe([]), Probe([]), Probe([o])) <==> Stable(o)
  {
    ProbeMerge([], [o]);
    var inner := MergeOptions([], [o]);
    ProbeMerge([], inner);
    ProbeMergeThree([], [], [o]);
    assert MergeOptions([], []) == [];
    MergeOneOption(o);
    if NormalizeOption(o) == "" {
      assert NormalizeOption("") == "";
    } else {
      MergeOneOption(NormalizeOption(o));
    }
  }

  /** Merging is associative over catalogs that draw their options from a set exactly when every option
      of the set is stable. */
  lemma {:induction false} AssociativeExactly(options: set<string>)
    ensures AssociatesOver(options) <==> forall o <- options :: Stable(o)
  {
    if forall o <- options :: Stable(o) {
      forall a, b, c | OptionsWithin(a, options) && OptionsWithin(b, options) && OptionsWithin(c, options)
        ensures Associates(a, b, c) {
        WithinStableIsClean(a, options);
        WithinStableIsClean(b, options);
        WithinStableIsClean(c, options);
        MergeAssociative("", a, b, c);
      }
    } else {
      var o :| o in options && !Stable(o);
      ProbeIsExact(o);
      assert OptionsWithin(Probe([]), options) && OptionsWithin(Probe([o]), options);
    }
  }

  /** The concrete failure: one comma is stripped per merge, so `a,,` becomes `a,` and then `a`. */
  lemma {:induction false} TwoCommasAreUnstable()
    ensures !Stable("a,,") && Stable("a,") && Stable("a")
  {
    StripFixed(IsSpace, "a,");
    StripFixed(IsSpace, "a");
    assert TrimComma("a,,") == "a," && TrimComma("a,") == "a" && TrimComma("a") == "a";
  }

  /** The concrete failure of self-merging: the option `a,` is kept as it is in a finished catalog, and
      merging that catalog with itself adds the option `a`. */
  lemma {:induction false} TrailingCommaGrows()
    ensures NormalCatalog(Probe(["a,"]))
    ensures Merge("", [Probe(["a,"]), Probe(["a,"])]) == Probe(["a,", "a"])
    ensures Merge("", [Probe(["a,"]), Probe(["a,"])]).vendors != Probe(["a,"]).vendors
  {
    TwoCommasAreUnstable();
    ProbeIsNormal(["a,"]);
    ProbeMerge(["a,"], ["a,"]);
    MergeTrailingComma();
    assert ProbeAttribute(["a,", "a"]).options != ProbeAttribute(["a,"]).options;
  }

  lemma {:induction false} ProbeIsNormal(options: seq<string>)
    requires StableOptions(options)
    ensures NormalCatalog(Probe(options))
  {
    ProbeKeys(options);
    assert NormalVendor(ProbeVendor(options));
  }

  lemma {:induction false} MergeTrailingComma()
    ensures MergeOptions(["a,"], ["a,"]) == ["a,", "a"]
  {
    assert NormalizeOption("a,") == "a" by {
      StripFixed(IsSpace, "a");
      assert TrimComma("a,") == "a";
    }
    MergeOneOption("a,");
    assert NormalizeOptions(["a,"]) == ["a"] by {
      assert ["a,"][1..] == [];
    }
    assert |Lower("a")| != |Lower("a,")|;
    DistinctCons(Lower, Keys(Lower, ["a,"]), "a", []);
    assert ["a"] == ["a"] + [];
  }
}

/** Which input decides what in a merged catalog: the first number, OID and type, the last positive vendor
    ID, the first spelling, and all options and values (configs/vendor_dictionary_loader.go). Everything
    is said about the list of input catalogs. */
module MergeWinners {
  import opened Text
  import opened Sequences
  import opened Dictionary
  import opened KeyedMerge
  import opened CatalogMerge

  // ----- the elements of one key

  function WithKey<T>(r: Rules<T>, k: string): T -> bool {
    (x: T) => r.key(x) == k
  }

  function Group<T>(r: Rules<T>, xs: seq<T>, k: string): seq<T> {
    Filter(WithKey(r, k), xs)
  }

  function CombineAll<T>(r: Rules<T>, xs: seq<T>): T
    requires xs != []
  {
    if |xs| == 1 then r.insert(xs[0]) else r.combine(CombineAll(r, xs[..|xs| - 1]), xs[|xs| - 1])
  }

  lemma {:induction false} CombineAllSnoc<T>(r: Rules<T>, xs: seq<T>, x: T)
    ensures CombineAll(r, xs + [x]) == if xs == [] then r.insert(x) else r.combine(CombineAll(r, xs), x)
  {
    assert (xs + [x])[..|xs|] == xs;
  }

  predicate HasKey(k: string) {
    k != ""
  }

  /** The keys of a list, in order, without the empty one. */
  function KeysOf<T>(r: Rules<T>, xs: seq<T>): seq<string> {
    Filter(HasKey, Mapped(r.key, xs))
  }

  /** What a merged list is: one element per key, in order of first occurrence, each made of the elements
      of its key. */
  ghost predicate Grouped<T(!new)>(r: Rules<T>, xs: seq<T>, merged: seq<T>) {
    && Mapped(r.key, merged) == Distinct(Itself, {}, KeysOf(r, xs))
    && forall i :: 0 <= i < |merged| ==>
         var group := Group(r, xs, r.key(merged[i]));
         group != [] && merged[i] == CombineAll(r, group)
  }

  lemma {:induction false} GroupSnoc<T>(r: Rules<T>, xs: seq<T>, x: T, k: string)
    ensures Group(r, xs + [x], k) == Group(r, xs, k) + if r.key(x) == k then [x] else []
  {
    FilterConcat(WithKey(r, k), xs, [x]);
    assert [x][1..] == [];
  }

  lemma {:induction false} KeysOfSnoc<T>(r: Rules<T>, xs: seq<T>, x: T)
    ensures KeysOf(r, xs + [x]) == KeysOf(r, xs) + if r.key(x) == "" then [] else [r.key(x)]
  {
    MappedConcat(r.key, xs, [x]);
    FilterConcat(HasKey, Mapped(r.key, xs), [r.key(x)]);
    assert [r.key(x)][1..] == [];
    assert Mapped(r.key, [x]) == [r.key(x)];
  }

  lemma {:induction false} DistinctSnoc(xs: seq<string>, k: string)
    ensures Distinct(Itself, {}, xs + [k]) == Distinct(Itself, {}, xs) + if k in xs then [] else [k]
  {
    DistinctConcat(Itself, {}, xs, [k]);
    ItselfKeys(xs, k);
    assert {} + Keys(Itself, xs) == Keys(Itself, xs) && [k][1..] == [];
  }

  lemma {:induction false} DistinctSame(xs: seq<string>, k: string)
    ensures k in Distinct(Itself, {}, xs) <==> k in xs
    ensures NoRepeats(Distinct(Itself, {}, xs))
  {
    DistinctKeys(Itself, {}, xs);
    ItselfKeys(xs, k);
    ItselfKeys(Distinct(Itself, {}, xs), k);
    var chosen := Distinct(Itself, {}, xs);
    assert forall i :: 0 <= i < |chosen| ==> Itself(chosen[i]) == chosen[i];
  }

  lemma {:induction false} KeysOfMembers<T>(r: Rules<T>, xs: seq<T>, k: string)
    requires k != ""
    ensures k in KeysOf(r, xs) <==> Group(r, xs, k) != []
  {
    if xs == [] {
      assert KeysOf(r, xs) == [] && Group(r, xs, k) == [];
    } else {
      var init, last := xs[..|xs| - 1], xs[|xs| - 1];
      assert xs == init + [last];
      KeysOfMembers(r, init, k);
      KeysOfSnoc(r, init, last);
      GroupSnoc(r, init, last, k);
    }
  }

  /** One more element. */
  lemma {:induction false} GroupedNext<T(!new)>(r: Rules<T>, xs: seq<T>, merged: seq<T>, x: T)
    requires KeepsKeys(r) && Grouped(r, xs, merged)
    ensures Grouped(r, xs + [x], Step(r, merged, x))
  {
    var k, after := r.key(x), Step(r, merged, x);
    var keys, used := Mapped(r.key, merged), KeysOf(r, xs);
    KeysOfSnoc(r, xs, x);
    if k == "" {
      assert used + [] == used;
    } else {
      DistinctSnoc(used, k);
      DistinctSame(used, k);
      KeysOfMembers(r, xs, k);
      StepKeys(r, merged, x);
    }
    forall i | 0 <= i < |after|
      ensures var group := Group(r, xs + [x], r.key(after[i])); group != [] && after[i] == CombineAll(r, group)
    {
      GroupedAt(r, xs, merged, x, i);
    }
  }

  lemma {:induction false} StepKeys<T(!new)>(r: Rules<T>, merged: seq<T>, x: T)
    requires KeepsKeys(r) && r.key(x) != ""
    ensures var keys := Mapped(r.key, merged);
            Mapped(r.key, Step(r, merged, x)) == keys + if r.key(x) in keys then [] else [r.key(x)]
  {
    var keys, i := Mapped(r.key, merged), IndexOf(r.key, merged, r.key(x));
    if i < |merged| {
      assert keys[i] == r.key(x);
      assert keys + [] == keys;
    } else {
      MappedConcat(r.key, merged, [r.insert(x)]);
      assert Mapped(r.key, [r.insert(x)]) == [r.key(x)];
    }
  }

  lemma {:induction false} GroupedAt<T(!new)>(r: Rules<T>, xs: seq<T>, merged: seq<T>, x: T, i: nat)
    requires KeepsKeys(r) && Grouped(r, xs, merged) && i < |Step(r, merged, x)|
    ensures var y := Step(r, merged, x)[i];
            var group := Group(r, xs + [x], r.key(y)); group != [] && y == CombineAll(r, group)
  {
    var k, at := r.key(x), IndexOf(r.key, merged, r.key(x));
    var y := Step(r, merged, x)[i];
    GroupSnoc(r, xs, x, r.key(y));
    CombineAllSnoc(r, Group(r, xs, k), x);
    if k != "" && i == at {
      if at == |merged| {
        NotMerged(r, xs, merged, k);
      }
    } else {
      OnlyAt(r, xs, merged, i, IndexOf(r.key, merged, r.key(merged[i])));
      assert y == merged[i] && k != r.key(y);
      assert Group(r, xs, r.key(y)) + [] == Group(r, xs, r.key(y));
    }
  }

  lemma {:induction false} NotMerged<T(!new)>(r: Rules<T>, xs: seq<T>, merged: seq<T>, k: string)
    requires Grouped(r, xs, merged) && k != "" && IndexOf(r.key, merged, k) == |merged|
    ensures Group(r, xs, k) == []
  {
    KeysOfMembers(r, xs, k);
    DistinctSame(KeysOf(r, xs), k);
    KeyIsIndexed(r, merged, k);
  }

  lemma {:induction false} KeyIsIndexed<T>(r: Rules<T>, xs: seq<T>, k: string)
    ensures k in Mapped(r.key, xs) <==> IndexOf(r.key, xs, k) < |xs|
  {
    var keys, i := Mapped(r.key, xs), IndexOf(r.key, xs, k);
    if i < |xs| {
      assert keys[i] == k;
    }
    if k in keys {
      var j :| 0 <= j < |xs| && keys[j] == k;
      assert r.key(xs[j]) == k;
    }
  }

  lemma {:induction false} OnlyAt<T(!new)>(r: Rules<T>, xs: seq<T>, merged: seq<T>, i: nat, at: nat)
    requires Grouped(r, xs, merged) && i < |merged| && at == IndexOf(r.key, merged, r.key(merged[i]))
    ensures i == at && r.key(merged[i]) != ""
  {
    var keys := Mapped(r.key, merged);
    DistinctSame(KeysOf(r, xs), keys[i]);
    assert keys[i] in keys && keys[at] == keys[i];
    FilterMembers(HasKey, Mapped(r.key, xs));
  }

  /** A fold from nothing is grouped, whatever the rules combine. */
  lemma {:induction false} FoldGrouped<T(!new)>(r: Rules<T>, xs: seq<T>)
    requires KeepsKeys(r)
    ensures Grouped(r, xs, Fold(r, [], xs))
  {
    if xs != [] {
      var init, last := xs[..|xs| - 1], xs[|xs| - 1];
      assert xs == init + [last];
      FoldGrouped(r, init);
      FoldSnoc(r, [], init, last);
      GroupedNext(r, init, Fold(r, [], init), last);
    }
  }

  // ----- who wins

  /** `value` is `f` of the first element that satisfies `p`, and `none` when none does. */
  ghost predicate FirstWins<T, U>(p: T -> bool, f: T -> U, xs: seq<T>, none: U, value: U) {
    || (exists k :: 0 <= k < |xs| && p(xs[k]) && value == f(xs[k]) && forall j :: 0 <= j < k ==> !p(xs[j]))
    || (value == none && forall j :: 0 <= j < |xs| ==> !p(xs[j]))
  }

  /** `value` is `f` of the last element that satisfies `p`, and `none` when none does. */
  ghost predicate LastWins<T, U>(p: T -> bool, f: T -> U, xs: seq<T>, none: U, value: U) {
    || (exists k :: 0 <= k < |xs| && p(xs[k]) && value == f(xs[k]) && forall j :: k < j < |xs| ==> !p(xs[j]))
    || (value == none && forall j :: 0 <= j < |xs| ==> !p(xs[j]))
  }

  lemma {:induction false} FirstWinsOne<T, U>(p: T -> bool, f: T -> U, x: T, none: U)
    requires p(x) <==> f(x) != none
    ensures FirstWins(p, f, [x], none, f(x))
  {
    assert [x][0] == x;
  }

  lemma {:induction false} FirstWinsNext<T(!new), U>(p: T -> bool, f: T -> U, xs: seq<T>, x: T, none: U, value: U)
    requires FirstWins(p, f, xs, none, value) && forall y :: p(y) <==> f(y) != none
    ensures FirstWins(p, f, xs + [x], none, if value == none then f(x) else value)
  {
    var all := xs + [x];
    assert all[|xs|] == x;
    if k :| 0 <= k < |xs| && p(xs[k]) && value == f(xs[k]) && forall j :: 0 <= j < k ==> !p(xs[j]) {
      assert p(all[k]) && value == f(all[k]) && forall j :: 0 <= j < k ==> !p(all[j]);
    } else {
      assert forall j :: 0 <= j < |xs| ==> !p(all[j]);
    }
  }

  lemma {:induction false} LastWinsNext<T, U>(p: T -> bool, f: T -> U, xs: seq<T>, x: T, none: U, value: U)
    requires LastWins(p, f, xs, none, value)
    ensures LastWins(p, f, xs + [x], none, if p(x) then f(x) else value)
  {
    var all := xs + [x];
    assert all[|xs|] == x;
    if !p(x) {
      if k :| 0 <= k < |xs| && p(xs[k]) && value == f(xs[k]) && forall j :: k < j < |xs| ==> !p(xs[j]) {
        assert p(all[k]) && forall j :: k < j < |all| ==> !p(all[j]);
      }
    }
  }

  // ----- attributes

  predicate Numbered(a: Attribute) {
    a.number != 0
  }

  function NumberOf(a: Attribute): int {
    a.number
  }

  predicate HasOID(a: Attribute) {
    a.oid != ""
  }

  function OIDOf(a: Attribute): string {
    a.oid
  }

  predicate Typed(a: Attribute) {
    a.kind != ""
  }

  function TypeOf(a: Attribute): string {
    a.kind
  }

  function OptionsOf(xs: seq<Attribute>): seq<string> {
    if xs == [] then [] else OptionsOf(xs[..|xs| - 1]) + xs[|xs| - 1].options
  }

  function ValuesOf(xs: seq<Attribute>): seq<Value> {
    if xs == [] then [] else ValuesOf(xs[..|xs| - 1]) + xs[|xs| - 1].values
  }

  /** A merged attribute against the inputs of its name: the first spelling, number, OID and type win; the
      first one's options and values come first, and then whatever the others add. */
  ghost predicate AttributeWins(inputs: seq<Attribute>, merged: Attribute)
    requires inputs != []
  {
    && merged.name == inputs[0].name
    && FirstWins(Numbered, NumberOf, inputs, 0, merged.number)
    && FirstWins(HasOID, OIDOf, inputs, "", merged.oid)
    && FirstWins(Typed, TypeOf, inputs, "", merged.kind)
    && merged.options == Extend(Lower, inputs[0].options, NormalizeOptions(OptionsOf(inputs[1..])))
    && merged.values == Extend(ValueKey, inputs[0].values, ValuesOf(inputs[1..]))
  }

  lemma {:induction false} ExtendTwice<T, K>(key: T -> K, xs: seq<T>, a: seq<T>, b: seq<T>)
    ensures Extend(key, Extend(key, xs, a), b) == Extend(key, xs, a + b)
  {
    var seen := Keys(key, xs);
    DistinctConcat(key, seen, a, b);
    KeysConcat(key, xs, Distinct(key, seen, a));
    DistinctKeys(key, seen, a);
    assert Keys(key, Extend(key, xs, a)) == seen + Keys(key, a);
  }

  lemma {:induction false} ExtendNothing<T, K>(key: T -> K, xs: seq<T>)
    ensures Extend(key, xs, []) == xs
  {
  }

  /** Every key of both lists is there. */
  lemma {:induction false} ExtendKeys<T, K>(key: T -> K, xs: seq<T>, more: seq<T>)
    ensures Keys(key, Extend(key, xs, more)) == Keys(key, xs) + Keys(key, more)
  {
    DistinctKeys(key, Keys(key, xs), more);
    KeysConcat(key, xs, Distinct(key, Keys(key, xs), more));
  }

  lemma {:induction false} OneAttribute(a: Attribute)
    ensures AttributeWins([a], CombineAll(ATTRIBUTE_RULES, [a]))
  {
    assert [a][1..] == [] && NormalizeOptions([]) == [];
    ExtendNothing(Lower, a.options);
    ExtendNothing(ValueKey, a.values);
    FirstWinsOne(Numbered, NumberOf, a, 0);
    FirstWinsOne(HasOID, OIDOf, a, "");
    FirstWinsOne(Typed, TypeOf, a, "");
  }

  lemma {:induction false} NextAttribute(inputs: seq<Attribute>, merged: Attribute, a: Attribute)
    requires inputs != [] && AttributeWins(inputs, merged)
    ensures AttributeWins(inputs + [a], ATTRIBUTE_RULES.combine(merged, a))
  {
    FirstWinsNext(Numbered, NumberOf, inputs, a, 0, merged.number);
    FirstWinsNext(HasOID, OIDOf, inputs, a, "", merged.oid);
    FirstWinsNext(Typed, TypeOf, inputs, a, "", merged.kind);
    NextLists(inputs, merged, a);
  }

  lemma {:induction false} NextLists(inputs: seq<Attribute>, merged: Attribute, a: Attribute)
    requires inputs != [] && AttributeWins(inputs, merged)
    ensures var rest := (inputs + [a])[1..];
            && MergeOptions(merged.options, a.options)
               == Extend(Lower, inputs[0].options, NormalizeOptions(OptionsOf(rest)))
            && MergeValues(merged.values, a.values) == Extend(ValueKey, inputs[0].values, ValuesOf(rest))
  {
    var rest := inputs[1..];
    assert (inputs + [a])[1..] == rest + [a] && (rest + [a])[..|rest|] == rest;
    NormalizeConcat(OptionsOf(rest), a.options);
    ExtendTwice(Lower, inputs[0].options, NormalizeOptions(OptionsOf(rest)), NormalizeOptions(a.options));
    ExtendTwice(ValueKey, inputs[0].values, ValuesOf(rest), a.values);
  }

  lemma {:induction false} AttributesWin(inputs: seq<Attribute>)
    requires inputs != []
    ensures AttributeWins(inputs, CombineAll(ATTRIBUTE_RULES, inputs))
  {
    var init, last := inputs[..|inputs| - 1], inputs[|inputs| - 1];
    assert inputs == init + [last];
    CombineAllSnoc(ATTRIBUTE_RULES, init, last);
    if init == [] {
      OneAttribute(last);
    } else {
      AttributesWin(init);
      NextAttribute(init, CombineAll(ATTRIBUTE_RULES, init), last);
    }
  }

  // ----- vendors

  predicate HasID(v: Vendor) {
    v.id > 0
  }

  function IDOf(v: Vendor): int {
    v.id
  }

  function AttributesOf(xs: seq<Vendor>): seq<Attribute> {
    if xs == [] then [] else AttributesOf(xs[..|xs| - 1]) + xs[|xs| - 1].attributes
  }

  function VendorOptionsOf(xs: seq<Vendor>): seq<string> {
    if xs == [] then [] else VendorOptionsOf(xs[..|xs| - 1]) + xs[|xs| - 1].options
  }

  /** A merged vendor against the inputs of its name: the first spelling, the last positive ID, or else the
      first ID, and all options, those of the first input before what the others add. */
  ghost predicate VendorWins(inputs: seq<Vendor>, merged: Vendor)
    requires inputs != []
  {
    && merged.name == Trim(inputs[0].name)
    && LastWins(HasID, IDOf, inputs, inputs[0].id, merged.id)
    && merged.options
       == Extend(Lower, NormalizeOptions(inputs[0].options), NormalizeOptions(VendorOptionsOf(inputs[1..])))
  }

  ghost predicate VendorMade(inputs: seq<Vendor>, merged: Vendor)
    requires inputs != []
  {
    VendorWins(inputs, merged) && merged.attributes == Fold(ATTRIBUTE_RULES, [], AttributesOf(inputs))
  }

  lemma {:induction false} OneVendor(v: Vendor)
    ensures VendorMade([v], CombineAll(VENDOR_RULES, [v]))
  {
    assert [v][0] == v && [v][1..] == [] && [v][..0] == [] && NormalizeOptions([]) == [];
    assert AttributesOf([v]) == [] + v.attributes == v.attributes;
    ExtendNothing(Lower, NormalizeOptions(v.options));
  }

  lemma {:induction false} NextVendor(inputs: seq<Vendor>, merged: Vendor, v: Vendor)
    requires inputs != [] && VendorMade(inputs, merged)
    ensures VendorMade(inputs + [v], VENDOR_RULES.combine(merged, v))
  {
    var rest := inputs[1..];
    assert (inputs + [v])[..|inputs|] == inputs && (inputs + [v])[1..] == rest + [v] && (rest + [v])[..|rest|] == rest;
    LastWinsNext(HasID, IDOf, inputs, v, inputs[0].id, merged.id);
    NormalizeConcat(VendorOptionsOf(rest), v.options);
    ExtendTwice(Lower, NormalizeOptions(inputs[0].options), NormalizeOptions(VendorOptionsOf(rest)),
                NormalizeOptions(v.options));
    FoldConcat(ATTRIBUTE_RULES, [], AttributesOf(inputs), v.attributes);
  }

  lemma {:induction false} VendorsWin(inputs: seq<Vendor>)
    requires inputs != []
    ensures VendorMade(inputs, CombineAll(VENDOR_RULES, inputs))
  {
    var init, last := inputs[..|inputs| - 1], inputs[|inputs| - 1];
    assert inputs == init + [last];
    CombineAllSnoc(VENDOR_RULES, init, last);
    if init == [] {
      OneVendor(last);
    } else {
      VendorsWin(init);
      NextVendor(init, CombineAll(VENDOR_RULES, init), last);
    }
  }

  // ----- whole merges

  /** A name without outer spaces and without case. */
  function Folded(name: string): string {
    Lower(Trim(name))
  }

  function VendorNamed(k: string): Vendor -> bool {
    (v: Vendor) => Folded(v.name) == k
  }

  function AttributeNamed(k: string): Attribute -> bool {
    (a: Attribute) => Folded(a.name) == k
  }

  function VendorName(v: Vendor): string {
    Folded(v.name)
  }

  function AttributeName(a: Attribute): string {
    Folded(a.name)
  }

  /** The vendors of the inputs that have the folded name `k`, in input order. */
  function InputVendors(catalogs: seq<Catalog>, k: string): seq<Vendor> {
    Filter(VendorNamed(k), AllVendors(catalogs))
  }

  /** The attributes with the folded name `a` of all those vendors, in input order. */
  function InputAttributes(catalogs: seq<Catalog>, k: string, a: string): seq<Attribute> {
    Filter(AttributeNamed(a), AttributesOf(InputVendors(catalogs, k)))
  }

  lemma {:induction false} FilterSame<T>(p: T -> bool, q: T -> bool, xs: seq<T>)
    requires forall x <- xs :: p(x) == q(x)
    ensures Filter(p, xs) == Filter(q, xs)
  {
    if xs != [] {
      assert xs[0] in xs && forall x <- xs[1..] :: x in xs;
      FilterSame(p, q, xs[1..]);
    }
  }

  lemma {:induction false} InputsAreGroup(catalogs: seq<Catalog>, k: string)
    ensures InputVendors(catalogs, k) == Group(VENDOR_RULES, AllVendors(catalogs), k)
  {
    FilterSame(VendorNamed(k), WithKey(VENDOR_RULES, k), AllVendors(catalogs));
  }

  lemma {:induction false} AttributesAreGroup(xs: seq<Attribute>, k: string)
    ensures Filter(AttributeNamed(k), xs) == Group(ATTRIBUTE_RULES, xs, k)
  {
    FilterSame(AttributeNamed(k), WithKey(ATTRIBUTE_RULES, k), xs);
  }

  /** The merged vendors: one for every non-blank name of the inputs, in order of first occurrence, each
      with the first spelling, the last positive ID and all options. */
  lemma {:induction false} MergedVendors(source: string, catalogs: seq<Catalog>)
    ensures Merge(source, catalogs).source == Trim(source)
    ensures Mapped(VendorName, Merge(source, catalogs).vendors)
         == Distinct(Itself, {}, Filter(HasKey, Mapped(VendorName, AllVendors(catalogs))))
    ensures forall v <- Merge(source, catalogs).vendors ::
              InputVendors(catalogs, Folded(v.name)) != [] && VendorWins(InputVendors(catalogs, Folded(v.name)), v)
  {
    VendorsKeepKeys();
    FoldGrouped(VENDOR_RULES, AllVendors(catalogs));
    var vendors := Merge(source, catalogs).vendors;
    SameMapped(VendorName, VENDOR_RULES.key, vendors);
    SameMapped(VendorName, VENDOR_RULES.key, AllVendors(catalogs));
    forall v | v in vendors
      ensures InputVendors(catalogs, Folded(v.name)) != [] && VendorWins(InputVendors(catalogs, Folded(v.name)), v)
    {
      MergedVendorMade(source, catalogs, v);
    }
  }

  lemma {:induction false} SameMapped<T, U>(f: T -> U, g: T -> U, xs: seq<T>)
    requires forall x <- xs :: f(x) == g(x)
    ensures Mapped(f, xs) == Mapped(g, xs)
  {
    forall i | 0 <= i < |xs| ensures Mapped(f, xs)[i] == Mapped(g, xs)[i] {
      assert xs[i] in xs;
    }
  }

  lemma {:induction false} MergedVendorMade(source: string, catalogs: seq<Catalog>, v: Vendor)
    requires v in Merge(source, catalogs).vendors
    ensures InputVendors(catalogs, Folded(v.name)) != [] && VendorMade(InputVendors(catalogs, Folded(v.name)), v)
  {
    var vendors := Merge(source, catalogs).vendors;
    VendorsKeepKeys();
    FoldGrouped(VENDOR_RULES, AllVendors(catalogs));
    InputsAreGroup(catalogs, Folded(v.name));
    var i :| 0 <= i < |vendors| && vendors[i] == v;
    VendorsWin(InputVendors(catalogs, Folded(v.name)));
  }

  /** The inputs come in the order of the catalogs, and within a catalog in its order. */
  lemma {:induction false} InputOrder(a: seq<Catalog>, c: Catalog, b: seq<Catalog>)
    ensures AllVendors(a + [c] + b) == AllVendors(a) + c.vendors + AllVendors(b)
    ensures AllValues(a + [c] + b) == AllValues(a) + c.values + AllValues(b)
    ensures AllWarnings(a + [c] + b) == AllWarnings(a) + c.warnings + AllWarnings(b)
  {
    AllConcat(a + [c], b);
    AllConcat(a, [c]);
    AllOne(c);
  }

  lemma {:induction false} VendorsKeepKeys()
    ensures KeepsKeys(VENDOR_RULES)
  {
    forall v ensures VendorKey(InsertVendor(v)) == VendorKey(v) {
      TrimTrim(v.name);
    }
  }

  /** The merged attributes of a vendor: one for every non-blank attribute name of the inputs of the vendor,
      in order of first occurrence, each with the first number, OID and type. */
  lemma {:induction false} MergedAttributes(source: string, catalogs: seq<Catalog>, v: Vendor)
    requires v in Merge(source, catalogs).vendors
    ensures var inputs := AttributesOf(InputVendors(catalogs, Folded(v.name)));
            Mapped(AttributeName, v.attributes) == Distinct(Itself, {}, Filter(HasKey, Mapped(AttributeName, inputs)))
    ensures forall a <- v.attributes ::
              var inputs := InputAttributes(catalogs, Folded(v.name), Folded(a.name));
              inputs != [] && AttributeWins(inputs, a)
  {
    var all := AttributesOf(InputVendors(catalogs, Folded(v.name)));
    MergedVendorMade(source, catalogs, v);
    FoldGrouped(ATTRIBUTE_RULES, all);
    SameMapped(AttributeName, ATTRIBUTE_RULES.key, v.attributes);
    SameMapped(AttributeName, ATTRIBUTE_RULES.key, all);
    forall a | a in v.attributes
      ensures var inputs := Filter(AttributeNamed(Folded(a.name)), all); inputs != [] && AttributeWins(inputs, a)
    {
      var i :| 0 <= i < |v.attributes| && v.attributes[i] == a;
      AttributesAreGroup(all, Folded(a.name));
      AttributesWin(Group(ATTRIBUTE_RULES, all, Folded(a.name)));
    }
  }

  /** No option and no value of an input is lost: the folded options and values are those of all inputs. */
  lemma {:induction false} NothingLost(inputs: seq<Attribute>, merged: Attribute)
    requires inputs != [] && AttributeWins(inputs, merged)
    ensures Keys(ValueKey, merged.values) == Keys(ValueKey, ValuesOf(inputs))
    ensures Keys(Lower, merged.options)
         == Keys(Lower, inputs[0].options) + Keys(Lower, NormalizeOptions(OptionsOf(inputs[1..])))
  {
    ExtendKeys(Lower, inputs[0].options, NormalizeOptions(OptionsOf(inputs[1..])));
    ExtendKeys(ValueKey, inputs[0].values, ValuesOf(inputs[1..]));
    ValuesOfCons(inputs);
    KeysConcat(ValueKey, inputs[0].values, ValuesOf(inputs[1..]));
  }

  lemma {:induction false} ValuesOfCons(inputs: seq<Attribute>)
    requires inputs != []
    ensures ValuesOf(inputs) == inputs[0].values + ValuesOf(inputs[1..])
  {
    var rest := inputs[1..];
    if rest == [] {
      assert inputs[..0] == [];
    } else {
      var init := inputs[..|inputs| - 1];
      ValuesOfCons(init);
      assert init[1..] == rest[..|rest| - 1];
    }
  }
}

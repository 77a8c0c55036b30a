/** The summaries of a vendor pack report (configs/access_vendor_pack.go, whose code five other packs
    repeat): one global pass, and groups per vendor and per capability that are collected in a map,
    read back in whatever order the map gives, and sorted. */
module PackSummary {
  import opened Text
  import opened Sequences

  datatype Record = Record(vendor: string, pen: nat, packKey: string, capability: string, class_: string,
                           certified: bool, external: bool)

  datatype Counts = Counts(attributes: nat, native: nat, redacted: nat, passthrough: nat, certified: nat, external: nat)

  datatype Summary = Summary(counts: Counts, blocked: nat, readyForExternal: nat, vendors: nat)

  /** One group: its key, the record that opened it and its counters. */
  datatype Item<K> = Item(key: K, first: Record, counts: Counts)

  const ZERO := Counts(0, 0, 0, 0, 0, 0)

  predicate Native(r: Record) {
    r.class_ == "native_semantic_mapping" || r.class_ == "policy_parse_compile"
  }

  predicate Redacted(r: Record) {
    !Native(r) && r.class_ == "redacted_secret_evidence"
  }

  /** The switch and the two tests that all three loops share: a redacted mapping is also passed through. */
  function Add(c: Counts, r: Record): Counts {
    Counts(c.attributes + 1, c.native + One(Native(r)), c.redacted + One(Redacted(r)), c.passthrough + One(!Native(r)),
           c.certified + One(r.certified), c.external + One(r.external))
  }

  function Tally(rs: seq<Record>): Counts {
    if rs == [] then ZERO else Add(Tally(rs[..|rs| - 1]), rs[|rs| - 1])
  }

  function Plus(a: Counts, b: Counts): Counts {
    Counts(a.attributes + b.attributes, a.native + b.native, a.redacted + b.redacted, a.passthrough + b.passthrough,
           a.certified + b.certified, a.external + b.external)
  }

  lemma {:induction false} TallySnoc(rs: seq<Record>, r: Record)
    ensures Tally(rs + [r]) == Add(Tally(rs), r)
  {
    assert (rs + [r])[..|rs|] == rs;
  }

  // ----- the global summary

  function VendorKey(r: Record): (string, nat) {
    (r.vendor, r.pen)
  }

  function CapabilityKey(r: Record): string {
    r.capability
  }

  /** `summarizeAccessVendorPack`. */
  method Summarize(rs: seq<Record>) returns (s: Summary)
    ensures s.counts == Tally(rs) && s.blocked == |rs| - s.counts.certified && s.readyForExternal == s.counts.certified
    ensures s.vendors == |Keys(VendorKey, rs)|
  {
    var vendors: set<(string, nat)> := {};
    var counts, blocked, ready := ZERO, 0, 0;
    for i := 0 to |rs|
      invariant counts == Tally(rs[..i])
      invariant blocked == i - counts.certified && ready == counts.certified
      invariant vendors == Keys(VendorKey, rs[..i])
    {
      assert rs[..i + 1] == rs[..i] + [rs[i]];
      TallySnoc(rs[..i], rs[i]);
      KeysConcat(VendorKey, rs[..i], [rs[i]]);
      vendors := vendors + {VendorKey(rs[i])};
      counts := Add(counts, rs[i]);
      if rs[i].certified {
        ready := ready + 1;
      } else {
        blocked := blocked + 1;
      }
    }
    assert rs[..|rs|] == rs;
    s := Summary(counts, blocked, ready, |vendors|);
  }

  /** Native and passed-through mappings make up the attributes, redacted ones are passed through, and
      certified and blocked ones make up the attributes. */
  lemma {:induction false} TallyConserves(rs: seq<Record>)
    ensures var c := Tally(rs);
            && c.native + c.passthrough == c.attributes == |rs| && c.redacted <= c.passthrough
            && c.certified <= |rs| && c.external <= |rs|
            && c.native == Count(Native, rs) && c.redacted == Count(Redacted, rs)
            && c.certified == Count((r: Record) => r.certified, rs)
            && c.external == Count((r: Record) => r.external, rs)
  {
    if rs != [] {
      TallyConserves(rs[..|rs| - 1]);
    }
  }

  // ----- groups

  ghost function Among<K(!new)>(key: Record -> K, k: K): Record -> bool {
    (r: Record) => key(r) == k
  }

  function AddTo<K>(groups: map<K, Item<K>>, k: K, r: Record): map<K, Item<K>> {
    var was := if k in groups then groups[k] else Item(k, r, ZERO);
    groups[k := was.(counts := Add(was.counts, r))]
  }

  /** What the map holds: for each key that occurs, the first record with it and the tally of all of them. */
  ghost predicate Grouped<K(!new)>(key: Record -> K, rs: seq<Record>, groups: map<K, Item<K>>) {
    && (forall k :: k in groups <==> Filter(Among(key, k), rs) != [])
    && (forall k <- groups :: GroupIs(key, rs, k, groups[k]))
  }

  ghost predicate GroupIs<K(!new)>(key: Record -> K, rs: seq<Record>, k: K, item: Item<K>) {
    var mine := Filter(Among(key, k), rs);
    mine != [] && item.key == k && item.first == mine[0] && item.counts == Tally(mine)
  }

  lemma {:induction false} GroupedNone<K(!new)>(key: Record -> K)
    ensures Grouped(key, [], map[])
  {
  }

  lemma {:induction false} GroupedStep<K(!new)>(key: Record -> K, rs: seq<Record>, groups: map<K, Item<K>>, r: Record)
    requires Grouped(key, rs, groups)
    ensures Grouped(key, rs + [r], AddTo(groups, key(r), r))
  {
    var after := AddTo(groups, key(r), r);
    forall k ensures (k in after <==> Filter(Among(key, k), rs + [r]) != [])
      && (k in after ==> GroupIs(key, rs + [r], k, after[k])) {
      var mine := Filter(Among(key, k), rs);
      FilterConcat(Among(key, k), rs, [r]);
      if k == key(r) {
        assert Filter(Among(key, k), [r]) == [r];
        TallySnoc(mine, r);
        if mine == [] {
          assert [] + [r] == [r];
        }
      } else {
        assert Filter(Among(key, k), [r]) == [];
        assert mine + [] == mine;
      }
    }
  }

  /** The grouping loop of both list summaries. */
  method Group<K(!new, ==)>(key: Record -> K, rs: seq<Record>) returns (groups: map<K, Item<K>>)
    ensures Grouped(key, rs, groups)
  {
    groups := map[];
    GroupedNone(key);
    assert rs[..0] == [];
    for i := 0 to |rs|
      invariant Grouped(key, rs[..i], groups)
    {
      ghost var done := rs[..i];
      GroupedStep(key, done, groups, rs[i]);
      groups := AddTo(groups, key(rs[i]), rs[i]);
      assert Grouped(key, done + [rs[i]], groups);
      assert rs[..i + 1] == done + [rs[i]];
    }
    assert rs[..|rs|] == rs;
  }

  function KeyOf<K>(item: Item<K>): K {
    item.key
  }

  /** The items of a map in some order. */
  ghost predicate Lists<K>(groups: map<K, Item<K>>, items: seq<Item<K>>) {
    && (forall k <- groups :: groups[k].key == k)
    && UniqueKeys(KeyOf, items)
    && (forall item <- items :: item.key in groups && groups[item.key] == item)
    && (forall k <- groups :: groups[k] in items)
  }

  /** Iteration over the map: any order may come out. */
  method ReadBack<K(==)>(groups: map<K, Item<K>>) returns (items: seq<Item<K>>)
    requires forall k <- groups :: groups[k].key == k
    ensures Lists(groups, items)
  {
    items := [];
    var left := groups.Keys;
    while left != {}
      invariant left <= groups.Keys && UniqueKeys(KeyOf, items)
      invariant forall item <- items :: item.key in groups && item.key !in left && groups[item.key] == item
      invariant forall k <- groups :: k in left || groups[k] in items
      decreases |left|
    {
      var k :| k in left;
      left := left - {k};
      items := items + [groups[k]];
    }
  }

  // ----- groups sum to the whole

  ghost function GroupTally<K(!new)>(key: Record -> K, k: K, rs: seq<Record>): Counts {
    Tally(Filter(Among(key, k), rs))
  }

  lemma {:induction false} GroupTallySnoc<K(!new)>(key: Record -> K, k: K, rs: seq<Record>, r: Record)
    ensures GroupTally(key, k, rs + [r]) == if key(r) == k then Add(GroupTally(key, k, rs), r)
            else GroupTally(key, k, rs)
  {
    var mine := Filter(Among(key, k), rs);
    FilterConcat(Among(key, k), rs, [r]);
    TallySnoc(mine, r);
    assert Filter(Among(key, k), [r]) == if key(r) == k then [r] else [];
    assert mine + [] == mine;
  }

  /** The tallies of the groups of `ks`, added up by `group`, which gives each key's tally. */
  function SumOver<K>(group: K -> Counts, ks: seq<K>): Counts {
    if ks == [] then ZERO else Plus(SumOver(group, ks[..|ks| - 1]), group(ks[|ks| - 1]))
  }

  lemma {:induction false} PlusAdd(a: Counts, b: Counts, r: Record)
    ensures Plus(Add(a, r), b) == Add(Plus(a, b), r) == Plus(a, Add(b, r))
  {
  }

  /** Adding a record to exactly one group adds it to the sum. */
  lemma {:induction false} SumOverStep<K(!new)>(before: K -> Counts, after: K -> Counts, ks: seq<K>, k: K, r: Record)
    requires forall i, j :: 0 <= i < j < |ks| ==> ks[i] != ks[j]
    requires forall l :: after(l) == if l == k then Add(before(l), r) else before(l)
    ensures SumOver(after, ks) == if k in ks then Add(SumOver(before, ks), r) else SumOver(before, ks)
  {
    if ks != [] {
      var init, last := ks[..|ks| - 1], ks[|ks| - 1];
      assert ks == init + [last];
      SumOverStep(before, after, init, k, r);
      PlusAdd(SumOver(before, init), before(last), r);
      assert last !in init;
    }
  }

  ghost function Tallies<K(!new)>(key: Record -> K, rs: seq<Record>): K -> Counts {
    (k: K) => GroupTally(key, k, rs)
  }

  ghost function SumTallies<K(!new)>(key: Record -> K, ks: seq<K>, rs: seq<Record>): Counts {
    SumOver(Tallies(key, rs), ks)
  }

  lemma {:induction false} SumTalliesSnoc<K(!new)>(key: Record -> K, ks: seq<K>, rs: seq<Record>, r: Record)
    requires forall i, j :: 0 <= i < j < |ks| ==> ks[i] != ks[j]
    requires key(r) in ks
    ensures SumTallies(key, ks, rs + [r]) == Add(SumTallies(key, ks, rs), r)
  {
    var before, after := Tallies(key, rs), Tallies(key, rs + [r]);
    forall l ensures after(l) == if l == key(r) then Add(before(l), r) else before(l) {
      GroupTallySnoc(key, l, rs, r);
    }
    SumOverStep(before, after, ks, key(r), r);
  }

  lemma {:induction false} PlusZero(a: Counts, zero: Counts)
    requires zero == ZERO
    ensures Plus(a, zero) == a
  {
  }

  lemma {:induction false} SumOverZero<K>(group: K -> Counts, ks: seq<K>)
    requires forall k <- ks :: group(k) == ZERO
    ensures SumOver(group, ks) == ZERO
  {
    if ks != [] {
      var init, last := ks[..|ks| - 1], ks[|ks| - 1];
      assert last in ks;
      PlusZero(SumOver(group, init), group(last));
      SumOverZero(group, init);
    }
  }

  lemma {:induction false} SumTalliesAll<K(!new)>(key: Record -> K, ks: seq<K>, rs: seq<Record>)
    requires forall i, j :: 0 <= i < j < |ks| ==> ks[i] != ks[j]
    requires forall r <- rs :: key(r) in ks
    ensures SumTallies(key, ks, rs) == Tally(rs)
    decreases |rs|
  {
    if rs == [] {
      SumOverZero(Tallies(key, rs), ks);
    } else {
      var init, last := rs[..|rs| - 1], rs[|rs| - 1];
      assert rs == init + [last];
      SumTalliesAll(key, ks, init);
      SumTalliesSnoc(key, ks, init, last);
    }
  }

  function SumItems<K>(items: seq<Item<K>>): Counts {
    if items == [] then ZERO else Plus(SumItems(items[..|items| - 1]), items[|items| - 1].counts)
  }

  lemma {:induction false} SumItemsIsSumOver<K(!new)>(group: K -> Counts, items: seq<Item<K>>)
    requires forall i :: 0 <= i < |items| ==> items[i].counts == group(items[i].key)
    ensures SumItems(items) == SumOver(group, Mapped(KeyOf, items))
  {
    if items != [] {
      var init := items[..|items| - 1];
      SumItemsIsSumOver(group, init);
      assert Mapped(KeyOf, items)[..|items| - 1] == Mapped(KeyOf, init);
    }
  }

  lemma {:induction false} ListedKeysCover<K(!new)>(key: Record -> K, rs: seq<Record>, groups: map<K, Item<K>>,
                                                    items: seq<Item<K>>, r: Record)
    requires Grouped(key, rs, groups) && Lists(groups, items) && r in rs
    ensures key(r) in Mapped(KeyOf, items)
  {
    FilterMembers(Among(key, key(r)), rs);
    assert r in Filter(Among(key, key(r)), rs);
    assert groups[key(r)] in items;
    var i :| 0 <= i < |items| && items[i] == groups[key(r)];
    assert Mapped(KeyOf, items)[i] == key(r);
  }

  lemma {:induction false} ListedKeysDiffer<K>(groups: map<K, Item<K>>, items: seq<Item<K>>)
    requires Lists(groups, items)
    ensures var ks := Mapped(KeyOf, items); forall i, j :: 0 <= i < j < |ks| ==> ks[i] != ks[j]
  {
    assert forall i, j :: 0 <= i < j < |items| ==> KeyOf(items[i]) != KeyOf(items[j]);
  }

  lemma {:induction false} ListedCounts<K(!new)>(key: Record -> K, rs: seq<Record>, groups: map<K, Item<K>>,
                                                 items: seq<Item<K>>)
    requires Grouped(key, rs, groups) && Lists(groups, items)
    ensures SumItems(items) == SumTallies(key, Mapped(KeyOf, items), rs)
  {
    forall i | 0 <= i < |items| ensures items[i].counts == Tallies(key, rs)(items[i].key) {
      assert items[i] in items;
      assert GroupIs(key, rs, items[i].key, items[i]);
    }
    SumItemsIsSumOver(Tallies(key, rs), items);
  }

  /** Every counter of the groups, by any key and in any order, sums to the global counter. */
  lemma {:induction false} GroupsSumToWhole<K(!new)>(key: Record -> K, rs: seq<Record>, groups: map<K, Item<K>>,
                                                     items: seq<Item<K>>)
    requires Grouped(key, rs, groups) && Lists(groups, items)
    ensures SumItems(items) == Tally(rs)
  {
    ListedCounts(key, rs, groups, items);
    ListedKeysDiffer(groups, items);
    forall r | r in rs ensures key(r) in Mapped(KeyOf, items) {
      ListedKeysCover(key, rs, groups, items, r);
    }
    SumTalliesAll(key, Mapped(KeyOf, items), rs);
  }

  // ----- order of the lists

  predicate CapabilityNotAfter(a: Item<string>, b: Item<string>) {
    if a.counts.attributes != b.counts.attributes then a.counts.attributes > b.counts.attributes
      else !Less(b.key, a.key)
  }

  predicate VendorNotAfter(a: Item<(string, nat)>, b: Item<(string, nat)>) {
    !Less(b.key.0, a.key.0)
  }

  lemma {:induction false} CapabilityOrder()
    ensures TotalPreorder(CapabilityNotAfter)
  {
    forall x, y ensures CapabilityNotAfter(x, y) || CapabilityNotAfter(y, x) {
      if Less(x.key, y.key) {
        LessAsymmetric(x.key, y.key);
      }
    }
    forall x, y, z | CapabilityNotAfter(x, y) && CapabilityNotAfter(y, z) ensures CapabilityNotAfter(x, z) {
      NotLessTransitive(x.key, y.key, z.key);
    }
  }

  lemma {:induction false} VendorOrder()
    ensures TotalPreorder(VendorNotAfter)
  {
    forall x, y ensures VendorNotAfter(x, y) || VendorNotAfter(y, x) {
      if Less(x.key.0, y.key.0) {
        LessAsymmetric(x.key.0, y.key.0);
      }
    }
    forall x, y, z | VendorNotAfter(x, y) && VendorNotAfter(y, z) ensures VendorNotAfter(x, z) {
      NotLessTransitive(x.key.0, y.key.0, z.key.0);
    }
  }

  /** Two readings of one map sort to the same list when equally ranked items are equal. */
  lemma {:induction false} SameSort<K(!new)>(le: (Item<K>, Item<K>) -> bool, groups: map<K, Item<K>>, a: seq<Item<K>>,
                                             b: seq<Item<K>>)
    requires TotalPreorder(le) && Lists(groups, a) && Lists(groups, b) && Antisymmetric(le, a)
    ensures StableSort(le, a) == StableSort(le, b)
  {
    var sa, sb := StableSort(le, a), StableSort(le, b);
    StableSortFacts(le, a);
    StableSortFacts(le, b);
    UniqueKeysPermute(KeyOf, a, sa);
    UniqueKeysPermute(KeyOf, b, sb);
    SortMembers(le, a);
    SortMembers(le, b);
    SortedUnique(le, KeyOf, sa, sb);
  }

  lemma {:induction false} SortMembers<K>(le: (Item<K>, Item<K>) -> bool, a: seq<Item<K>>)
    ensures SameMembers(StableSort(le, a), a)
  {
    StableSortPermutes(le, a);
    forall x | x in a ensures x in StableSort(le, a) {
      assert x in multiset(a);
    }
    forall x | x in StableSort(le, a) ensures x in a {
      assert x in multiset(StableSort(le, a));
    }
  }

  lemma {:induction false} SortLists<K(!new)>(le: (Item<K>, Item<K>) -> bool, groups: map<K, Item<K>>,
                                              items: seq<Item<K>>)
    requires Lists(groups, items)
    ensures Lists(groups, StableSort(le, items))
  {
    StableSortPermutes(le, items);
    UniqueKeysPermute(KeyOf, items, StableSort(le, items));
    SortMembers(le, items);
  }

  /** What a list summary holds: one item per occurring key, exact, adding up to the whole. */
  ghost predicate SummarizedBy<K(!new)>(key: Record -> K, rs: seq<Record>, out: seq<Item<K>>) {
    Reading(key, rs, out) && SumItems(out) == Tally(rs)
  }

  /** The groups of a record list in some order: what one reading of the map can give. */
  ghost predicate Reading<K(!new)>(key: Record -> K, rs: seq<Record>, items: seq<Item<K>>) {
    && UniqueKeys(KeyOf, items)
    && (forall item <- items :: GroupIs(key, rs, item.key, item))
    && (forall r <- rs :: key(r) in Mapped(KeyOf, items))
  }

  lemma {:induction false} ListSummarizes<K(!new)>(key: Record -> K, rs: seq<Record>, groups: map<K, Item<K>>,
                                                   out: seq<Item<K>>)
    requires Grouped(key, rs, groups) && Lists(groups, out)
    ensures SummarizedBy(key, rs, out)
  {
    GroupsSumToWhole(key, rs, groups, out);
    ListsIsReading(key, rs, groups, out);
  }

  lemma {:induction false} GroupOccurs<K(!new)>(key: Record -> K, rs: seq<Record>, k: K)
    ensures Filter(Among(key, k), rs) != [] <==> exists r <- rs :: key(r) == k
  {
    FilterMembers(Among(key, k), rs);
    if Filter(Among(key, k), rs) != [] {
      assert Filter(Among(key, k), rs)[0] in Filter(Among(key, k), rs);
    }
    if r :| r in rs && key(r) == k {
      assert r in Filter(Among(key, k), rs);
    }
  }

  lemma {:induction false} GroupKey<K(!new)>(key: Record -> K, rs: seq<Record>, item: Item<K>)
    requires GroupIs(key, rs, item.key, item)
    ensures key(item.first) == item.key
  {
    FilterMember(Among(key, item.key), rs, item.first);
  }

  lemma {:induction false} SameReading<K(!new)>(key: Record -> K, rs: seq<Record>, a: seq<Item<K>>, b: seq<Item<K>>,
                                                item: Item<K>)
    requires Reading(key, rs, a) && Reading(key, rs, b) && item in a
    ensures item in b
  {
    GroupKey(key, rs, item);
    FilterMember(Among(key, item.key), rs, item.first);
    var i :| 0 <= i < |b| && Mapped(KeyOf, b)[i] == item.key;
    assert b[i] in b && GroupIs(key, rs, item.key, b[i]);
  }

  /** Two sorted readings of one record list are equal when items of equal rank have equal keys. */
  lemma {:induction false} SortedReadings<K(!new)>(le: (Item<K>, Item<K>) -> bool, key: Record -> K, rs: seq<Record>,
                                                   a: seq<Item<K>>, b: seq<Item<K>>)
    requires Reading(key, rs, a) && Reading(key, rs, b) && SortedBy(le, a) && SortedBy(le, b)
    requires forall x <- a, y <- a :: le(x, y) && le(y, x) ==> x.key == y.key
    ensures a == b
  {
    forall x | x in a ensures x in b {
      SameReading(key, rs, a, b, x);
    }
    forall x | x in b ensures x in a {
      SameReading(key, rs, b, a, x);
    }
    forall x, y | x in a && y in a && le(x, y) && le(y, x) ensures x == y {
      assert KeyOf(x) == KeyOf(y);
    }
    SortedUnique(le, KeyOf, a, b);
  }

  /** Reading the map back in some order is listing the groups of the records in some order. */
  lemma {:induction false} ListsIsReading<K(!new)>(key: Record -> K, rs: seq<Record>, groups: map<K, Item<K>>,
                                                   items: seq<Item<K>>)
    requires Grouped(key, rs, groups)
    ensures Lists(groups, items) <==> Reading(key, rs, items)
  {
    if Lists(groups, items) {
      forall r | r in rs ensures key(r) in Mapped(KeyOf, items) {
        ListedKeysCover(key, rs, groups, items, r);
      }
    }
    if Reading(key, rs, items) {
      forall item | item in items ensures item.key in groups && groups[item.key] == item {
        assert GroupIs(key, rs, item.key, item);
        assert GroupIs(key, rs, item.key, groups[item.key]);
      }
      forall k | k in groups ensures groups[k] in items {
        GroupOccurs(key, rs, k);
        var r :| r in rs && key(r) == k;
        var i :| 0 <= i < |items| && Mapped(KeyOf, items)[i] == k;
        assert items[i] in items && GroupIs(key, rs, k, items[i]) && GroupIs(key, rs, k, groups[k]);
      }
    }
  }

  /** `summarizeAccessVendorVendors` and `summarizeAccessVendorCapabilities`: group, read back, sort. */
  method SummarizeBy<K(!new, ==)>(le: (Item<K>, Item<K>) -> bool, key: Record -> K, rs: seq<Record>)
    returns (out: seq<Item<K>>)
    requires TotalPreorder(le)
    ensures SummarizedBy(key, rs, out) && SortedBy(le, out)
  {
    var groups := Group(key, rs);
    var items := ReadBack(groups);
    StableSortFacts(le, items);
    SortLists(le, groups, items);
    out := StableSort(le, items);
    ListSummarizes(key, rs, groups, out);
  }

  lemma {:induction false} CapabilityListOfMap(groups: map<string, Item<string>>, a: seq<Item<string>>,
                                               b: seq<Item<string>>)
    requires Lists(groups, a) && Lists(groups, b)
    ensures StableSort(CapabilityNotAfter, a) == StableSort(CapabilityNotAfter, b)
  {
    CapabilityOrder();
    forall x, y | x in a && y in a && CapabilityNotAfter(x, y) && CapabilityNotAfter(y, x) ensures x == y {
      LessTotal(x.key, y.key);
    }
    SameSort(CapabilityNotAfter, groups, a, b);
  }

  /** No vendor name has groups of two enterprise numbers. */
  ghost predicate OneNumberEach(groups: map<(string, nat), Item<(string, nat)>>) {
    forall k <- groups, l <- groups :: k.0 == l.0 ==> k == l
  }

  lemma {:induction false} VendorListIsFixed(groups: map<(string, nat), Item<(string, nat)>>,
                                             a: seq<Item<(string, nat)>>, b: seq<Item<(string, nat)>>)
    requires Lists(groups, a) && Lists(groups, b) && OneNumberEach(groups)
    ensures StableSort(VendorNotAfter, a) == StableSort(VendorNotAfter, b)
  {
    VendorOrder();
    forall x, y | x in a && y in a && VendorNotAfter(x, y) && VendorNotAfter(y, x) ensures x == y {
      LessTotal(x.key.0, y.key.0);
      assert x.key == y.key;
    }
    SameSort(VendorNotAfter, groups, a, b);
  }

  lemma {:induction false} FilterFirst<T>(p: T -> bool, xs: seq<T>, i: nat)
    requires i < |xs| && p(xs[i]) && forall k :: 0 <= k < i ==> !p(xs[k])
    ensures Filter(p, xs) != [] && Filter(p, xs)[0] == xs[i]
  {
    if i > 0 {
      FilterFirst(p, xs[1..], i - 1);
      assert Filter(p, xs) == [] + Filter(p, xs[1..]);
    }
  }

  lemma {:induction false} FirstSatisfying<T>(p: T -> bool, xs: seq<T>, j: nat) returns (i: nat)
    requires j < |xs| && p(xs[j])
    ensures i <= j && p(xs[i]) && forall k :: 0 <= k < i ==> !p(xs[k])
  {
    i := 0;
    while !p(xs[i])
      invariant i <= j && forall k :: 0 <= k < i ==> !p(xs[k])
      decreases j - i
    {
      i := i + 1;
    }
  }

  lemma {:induction false} SwapLists<K>(groups: map<K, Item<K>>, a: seq<Item<K>>, i: nat, j: nat)
    requires Lists(groups, a) && i < j < |a|
    ensures Lists(groups, a[i := a[j]][j := a[i]])
  {
    var b := a[i := a[j]][j := a[i]];
    forall x | x in a ensures x in b {
      var k :| 0 <= k < |a| && a[k] == x;
      assert b[if k == i then j else if k == j then i else k] == x;
    }
    forall x | x in b ensures x in a {
      var k :| 0 <= k < |b| && b[k] == x;
      assert a[if k == i then j else if k == j then i else k] == x;
    }
  }

  lemma {:induction false} SwapChangesSort(groups: map<(string, nat), Item<(string, nat)>>, a: seq<Item<(string, nat)>>,
                                           v: string, i: nat, j: nat)
    requires Lists(groups, a) && i < j < |a| && a[i].key.0 == v && a[j].key.0 == v
    requires forall k :: 0 <= k < i ==> a[k].key.0 != v
    ensures StableSort(VendorNotAfter, a) != StableSort(VendorNotAfter, a[i := a[j]][j := a[i]])
  {
    var p := (x: Item<(string, nat)>) => x.key.0 == v;
    var b := a[i := a[j]][j := a[i]];
    FilterFirst(p, a, i);
    FilterFirst(p, b, i);
    VendorOrder();
    SameVendorTies(v);
    StableSortStable(VendorNotAfter, p, a);
    StableSortStable(VendorNotAfter, p, b);
    assert KeyOf(a[i]) != KeyOf(a[j]);
  }

  /** When a vendor name has two numbers, some other reading of the map sorts differently. */
  lemma {:induction false} VendorListVaries(groups: map<(string, nat), Item<(string, nat)>>,
                                            a: seq<Item<(string, nat)>>) returns (b: seq<Item<(string, nat)>>)
    requires Lists(groups, a) && !OneNumberEach(groups)
    ensures Lists(groups, b) && StableSort(VendorNotAfter, a) != StableSort(VendorNotAfter, b)
  {
    var k, l :| k in groups && l in groups && k.0 == l.0 && k != l;
    assert groups[k] in a && groups[l] in a;
    var x: nat :| x < |a| && a[x] == groups[k];
    var y: nat :| y < |a| && a[y] == groups[l];
    var i := FirstSatisfying((x: Item<(string, nat)>) => x.key.0 == k.0, a, x);
    assert i <= y && x != y;
    var j := if i == x then y else x;
    b := a[i := a[j]][j := a[i]];
    SwapLists(groups, a, i, j);
    SwapChangesSort(groups, a, k.0, i, j);
  }

  /** No vendor name of the records has two enterprise numbers. */
  predicate OneNumberPerVendor(rs: seq<Record>) {
    forall r <- rs, s <- rs :: r.vendor == s.vendor ==> r.pen == s.pen
  }

  ghost function GroupsOf<K(!new)>(key: Record -> K, rs: seq<Record>): map<K, Item<K>> {
    if rs == [] then map[] else AddTo(GroupsOf(key, rs[..|rs| - 1]), key(rs[|rs| - 1]), rs[|rs| - 1])
  }

  lemma {:induction false} GroupsOfGrouped<K(!new)>(key: Record -> K, rs: seq<Record>)
    ensures Grouped(key, rs, GroupsOf(key, rs))
  {
    if rs != [] {
      var init, last := rs[..|rs| - 1], rs[|rs| - 1];
      assert rs == init + [last];
      GroupsOfGrouped(key, init);
      GroupedStep(key, init, GroupsOf(key, init), last);
    }
  }

  lemma {:induction false} SomeListing<K>(groups: map<K, Item<K>>) returns (items: seq<Item<K>>)
    requires forall k <- groups :: groups[k].key == k
    ensures Lists(groups, items)
  {
    items := [];
    var left := groups.Keys;
    while left != {}
      invariant left <= groups.Keys && UniqueKeys(KeyOf, items)
      invariant forall item <- items :: item.key in groups && item.key !in left && groups[item.key] == item
      invariant forall k <- groups :: k in left || groups[k] in items
      decreases |left|
    {
      var k :| k in left;
      left := left - {k};
      items := items + [groups[k]];
    }
  }

  lemma {:induction false} OneNumberInGroups(rs: seq<Record>, groups: map<(string, nat), Item<(string, nat)>>)
    requires Grouped(VendorKey, rs, groups)
    ensures OneNumberEach(groups) <==> OneNumberPerVendor(rs)
  {
    forall k ensures k in groups <==> exists r <- rs :: VendorKey(r) == k {
      GroupOccurs(VendorKey, rs, k);
    }
    if OneNumberEach(groups) {
      forall r, s | r in rs && s in rs && r.vendor == s.vendor ensures r.pen == s.pen {
        assert VendorKey(r) in groups && VendorKey(s) in groups;
      }
    }
    if OneNumberPerVendor(rs) {
      forall k, l | k in groups && l in groups && k.0 == l.0 ensures k == l {
        var r :| r in rs && VendorKey(r) == k;
        var s :| s in rs && VendorKey(s) == l;
      }
    }
  }

  /** All readings of the vendor groups sort to one list. */
  ghost predicate VendorListFixed(rs: seq<Record>) {
    forall a, b :: Reading(VendorKey, rs, a) && Reading(VendorKey, rs, b) ==>
      StableSort(VendorNotAfter, a) == StableSort(VendorNotAfter, b)
  }

  /** The capability list of any records is the same for every iteration order of the map. */
  lemma {:induction false} CapabilityListIsFixed(rs: seq<Record>, a: seq<Item<string>>, b: seq<Item<string>>)
    requires Reading(CapabilityKey, rs, a) && Reading(CapabilityKey, rs, b)
    ensures StableSort(CapabilityNotAfter, a) == StableSort(CapabilityNotAfter, b)
  {
    var groups := GroupsOf(CapabilityKey, rs);
    GroupsOfGrouped(CapabilityKey, rs);
    ListsIsReading(CapabilityKey, rs, groups, a);
    ListsIsReading(CapabilityKey, rs, groups, b);
    CapabilityListOfMap(groups, a, b);
  }

  /** The vendor list is the same for every iteration order of the map exactly when no vendor name of the
      records has two enterprise numbers. */
  lemma {:induction false} VendorListExactly(rs: seq<Record>)
    ensures VendorListFixed(rs) <==> OneNumberPerVendor(rs)
  {
    var groups := GroupsOf(VendorKey, rs);
    GroupsOfGrouped(VendorKey, rs);
    OneNumberInGroups(rs, groups);
    if OneNumberPerVendor(rs) {
      forall a, b | Reading(VendorKey, rs, a) && Reading(VendorKey, rs, b)
        ensures StableSort(VendorNotAfter, a) == StableSort(VendorNotAfter, b) {
        ListsIsReading(VendorKey, rs, groups, a);
        ListsIsReading(VendorKey, rs, groups, b);
        VendorListIsFixed(groups, a, b);
      }
    } else {
      var a := SomeListing(groups);
      var b := VendorListVaries(groups, a);
      ListsIsReading(VendorKey, rs, groups, a);
      ListsIsReading(VendorKey, rs, groups, b);
    }
  }

  /** The concrete failure: two records of one vendor name with two enterprise numbers. */
  lemma {:induction false} TwoNumbersVary()
    ensures var first := Record("v", 1, "", "", "", true, true);
            !VendorListFixed([first, first.(pen := 2)])
  {
    var first := Record("v", 1, "", "", "", true, true);
    var rs := [first, first.(pen := 2)];
    assert rs[0] in rs && rs[1] in rs;
    VendorListExactly(rs);
  }

  lemma {:induction false} SameVendorTies(v: string)
    ensures forall a: Item<(string, nat)>, b: Item<(string, nat)> :: a.key.0 == v && b.key.0 == v ==>
            VendorNotAfter(a, b)
  {
    if Less(v, v) {
      LessAsymmetric(v, v);
    }
  }
}

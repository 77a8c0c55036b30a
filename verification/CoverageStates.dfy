/** What the coverage report says of each pack and how it counts packs, read off the packs and the catalog
    (configs/vendor_coverage.go). */
module CoverageStates {
  import opened Text
  import opened Sequences
  import opened Dictionary
  import opened RegistryModel
  import opened Packs
  import opened Coverage

  /** What the rows of a report are about. */
  datatype Scope = Scope(names: Names, normalizePack: string -> string, vendors: seq<Vendor>, active: set<string>)

  predicate IsStandard(s: Scope, pack: Pack) {
    s.normalizePack(pack.key) == STANDARD
  }

  /** The catalog knows a mapping that is not a controller call. */
  predicate IsCovered(s: Scope, pack: Pack, m: Mapping) {
    Trim(m.direction) != CONTROLLER && Backs(s.names, s.normalizePack, s.vendors, pack, m)
  }

  predicate IsRadius(m: Mapping) {
    m.direction != CONTROLLER
  }

  ghost predicate SomeRadius(pack: Pack) {
    exists m <- pack.attributes :: IsRadius(m)
  }

  ghost predicate AllCovered(s: Scope, pack: Pack) {
    forall m <- pack.attributes :: IsRadius(m) ==> IsCovered(s, pack, m)
  }

  ghost predicate SomeCovered(s: Scope, pack: Pack) {
    exists m <- pack.attributes :: IsRadius(m) && IsCovered(s, pack, m)
  }

  ghost predicate IsRowOf(s: Scope, pack: Pack, row: Row) {
    RowFor(s.names, s.normalizePack, s.vendors, s.active, pack, row)
  }

  lemma {:induction false} CountSome<T>(p: T -> bool, xs: seq<T>)
    ensures Count(p, xs) > 0 <==> exists x <- xs :: p(x)
  {
    CountZero(p, xs);
    assert forall i :: 0 <= i < |xs| ==> xs[i] in xs;
  }

  /** The state of a row, by what its pack contains and the catalog knows. */
  lemma {:induction false} StateExactly(s: Scope, pack: Pack, row: Row)
    requires IsRowOf(s, pack, row)
    ensures row.state == if !SomeRadius(pack) then ControllerAPI
                         else if IsStandard(s, pack) then StandardRadius
                         else if AllCovered(s, pack) then DictionaryBacked
                         else if SomeCovered(s, pack) then PartialDictionary
                         else if !Blank(pack.vendorName) then DictionaryMissing
                         else MetadataOnly
  {
    var cover := CoverWith(s.names, s.normalizePack, s.vendors, pack);
    CountSome(Radius, pack.attributes);
    CountSome(Matched(cover), pack.attributes);
    BackedExactly(cover, pack.attributes);
    assert forall m :: cover(m).found <==> IsCovered(s, pack, m);
    assert forall m :: Matched(cover)(m) <==> IsRadius(m) && IsCovered(s, pack, m);
  }

  /** Every mapping has its texts, trimmed, and whether it is covered. */
  lemma {:induction false} CoverageSays(s: Scope, pack: Pack, row: Row, i: nat)
    requires IsRowOf(s, pack, row) && i < |pack.attributes|
    ensures |row.attributes| == |pack.attributes|
    ensures var c, m := row.attributes[i], pack.attributes[i];
            && c.semantic == Trim(m.semantic) && c.attribute == Trim(m.attribute) && c.direction == Trim(m.direction)
            && (c.found <==> IsCovered(s, pack, m))
  {
  }

  // ----- counters over packs

  ghost predicate IsBackedPack(s: Scope, pack: Pack) {
    SomeRadius(pack) && (IsStandard(s, pack) || AllCovered(s, pack))
  }

  ghost predicate IsPartialPack(s: Scope, pack: Pack) {
    SomeRadius(pack) && !IsStandard(s, pack) && !AllCovered(s, pack) && SomeCovered(s, pack)
  }

  ghost predicate IsVendorless(s: Scope, pack: Pack) {
    !Blank(pack.vendorName) && SomeRadius(pack)
    && forall v <- s.vendors :: !IsNamed(s.names, v, Trim(pack.vendorName))
  }

  ghost function Backed(s: Scope): Pack -> bool {
    (pack: Pack) => IsBackedPack(s, pack)
  }

  ghost function Partial(s: Scope): Pack -> bool {
    (pack: Pack) => IsPartialPack(s, pack)
  }

  ghost function Vendorless(s: Scope): Pack -> bool {
    (pack: Pack) => IsVendorless(s, pack)
  }

  function Active(s: Scope): Pack -> bool {
    (pack: Pack) => s.normalizePack(pack.key) in s.active
  }

  lemma {:induction false} CountPairs<T, U>(p: T -> bool, xs: seq<T>, q: U -> bool, ys: seq<U>)
    requires |xs| == |ys| && forall i :: 0 <= i < |xs| ==> (p(xs[i]) <==> q(ys[i]))
    ensures Count(p, xs) == Count(q, ys)
  {
    if xs != [] {
      var n := |xs| - 1;
      assert xs == xs[..n] + [xs[n]] && ys == ys[..n] + [ys[n]];
      CountPairs(p, xs[..n], q, ys[..n]);
      CountSnoc(p, xs[..n], xs[n]);
      CountSnoc(q, ys[..n], ys[n]);
    }
  }

  lemma {:induction false} RowCounts(s: Scope, pack: Pack, row: Row)
    requires IsRowOf(s, pack, row)
    ensures IsBacked(row) <==> IsBackedPack(s, pack)
    ensures IsPartial(row) <==> IsPartialPack(s, pack)
    ensures LacksVendor(row) <==> IsVendorless(s, pack)
    ensures IsActive(row) <==> Active(s)(pack)
  {
    StateExactly(s, pack, row);
    VendorByNameExactly(s.names, s.vendors, Trim(pack.vendorName));
    CountSome(Radius, pack.attributes);
  }

  /** The report counts exactly the packs that are active, dictionary-backed, partially covered, or without
      their vendor in the catalog. */
  lemma {:induction false} CountersExactly(s: Scope, packs: seq<Pack>, report: Report)
    requires IsReport(s.names, s.normalizePack, s.vendors, packs, s.active, report)
    ensures report.packs == |packs| && report.active == Count(Active(s), packs)
    ensures report.backed == Count(Backed(s), packs) && report.partial == Count(Partial(s), packs)
    ensures report.missingVendors == Count(Vendorless(s), packs)
  {
    var rows := report.rows;
    forall i | 0 <= i < |packs|
      ensures (IsBacked(rows[i]) <==> Backed(s)(packs[i])) && (IsPartial(rows[i]) <==> Partial(s)(packs[i]))
      ensures (LacksVendor(rows[i]) <==> Vendorless(s)(packs[i])) && (IsActive(rows[i]) <==> Active(s)(packs[i]))
    {
      assert IsRowOf(s, packs[i], rows[i]);
      RowCounts(s, packs[i], rows[i]);
    }
    CountPairs(IsActive, rows, Active(s), packs);
    CountPairs(IsBacked, rows, Backed(s), packs);
    CountPairs(IsPartial, rows, Partial(s), packs);
    CountPairs(LacksVendor, rows, Vendorless(s), packs);
  }
}

/** Dictionary coverage of compatibility packs (configs/vendor_coverage.go): which pack attributes the
    parsed catalog knows, counted per pack and over all packs. */
module Coverage {
  import opened Text
  import opened Sequences
  import opened Wrappers
  import opened Dictionary
  import opened RegistryModel
  import opened Packs

  const CONTROLLER := "controller_api"
  const IMPLEMENTED := "implemented"

  datatype State =
    | ControllerAPI | StandardRadius | DictionaryBacked | PartialDictionary | DictionaryMissing | MetadataOnly

  datatype AttributeCoverage = AttributeCoverage(semantic: string, attribute: string, direction: string, found: bool)

  datatype Counts = Counts(radius: nat, matched: nat, missing: nat, implemented: nat, planned: nat)

  datatype Row = Row(packKey: string, vendorName: string, active: bool, vendorFound: bool, packAttributes: nat,
                     counts: Counts, state: State, attributes: seq<AttributeCoverage>)

  datatype Report = Report(packs: nat, active: nat, backed: nat, partial: nat, missingVendors: nat,
                           implemented: nat, planned: nat, matched: nat, missing: nat, rows: seq<Row>)

  // ----- catalog searches

  /** `VendorByName`: the first vendor whose normalised folded name is the sought one. */
  function VendorByName(names: Names, vendors: seq<Vendor>, name: string): Option<Vendor> {
    FirstVendor(names, vendors, Lower(Trim(names.vendor(name))))
  }

  function FirstVendor(names: Names, vendors: seq<Vendor>, key: string): (r: Option<Vendor>)
    ensures r.Some? ==> r.value in vendors
  {
    if vendors == [] then None
    else if Lower(names.vendor(vendors[0].name)) == key then Some(vendors[0])
    else FirstVendor(names, vendors[1..], key)
  }

  /** Vendor `i` is the first one that a name, normalised and folded, stands for. */
  ghost predicate FirstNamed(names: Names, vendors: seq<Vendor>, name: string, i: nat) {
    && i < |vendors| && IsNamed(names, vendors[i], name)
    && forall j :: 0 <= j < i ==> !IsNamed(names, vendors[j], name)
  }

  predicate IsNamed(names: Names, vendor: Vendor, name: string) {
    Lower(names.vendor(vendor.name)) == Lower(Trim(names.vendor(name)))
  }

  /** The search finds the first vendor of a name, and fails exactly when there is none. */
  lemma {:induction false} VendorByNameExactly(names: Names, vendors: seq<Vendor>, name: string)
    ensures VendorByName(names, vendors, name).None? <==> forall v <- vendors :: !IsNamed(names, v, name)
    ensures forall i: nat :: FirstNamed(names, vendors, name, i) ==>
              VendorByName(names, vendors, name) == Some(vendors[i])
  {
    if vendors != [] {
      VendorByNameExactly(names, vendors[1..], name);
      assert forall v :: v in vendors <==> v == vendors[0] || v in vendors[1..];
      forall i: nat | FirstNamed(names, vendors, name, i)
        ensures VendorByName(names, vendors, name) == Some(vendors[i])
      {
        if i > 0 {
          assert !IsNamed(names, vendors[0], name);
          assert FirstNamed(names, vendors[1..], name, i - 1) by {
            forall j | 0 <= j < i - 1 ensures !IsNamed(names, vendors[1..][j], name) {
              assert vendors[1..][j] == vendors[j + 1];
            }
          }
        }
      }
    }
  }

  /** The two spellings under which a dictionary attribute answers. */
  predicate SpelledAs(names: Names, vendor: Vendor, a: Attribute, key: string) {
    var spelled := Lower(names.attribute(vendor.name, a.name));
    spelled == key || spelled == Lower(vendor.name) + "." + key
  }

  /** Whether `catalog.Attribute` finds the attribute. */
  predicate HasAttribute(names: Names, vendors: seq<Vendor>, vendorName: string, attribute: string) {
    var vendor := VendorByName(names, vendors, vendorName);
    && vendor.Some?
    && exists a <- vendor.value.attributes :: SpelledAs(names, vendor.value, a,
                                                        Lower(Trim(names.attribute(vendor.value.name, attribute))))
  }

  // ----- one pack

  function PackVendor(pack: Pack): string {
    Trim(pack.vendorName)
  }

  /** Whether the catalog backs a mapping that is not a controller call. */
  predicate Backs(names: Names, normalizePack: string -> string, vendors: seq<Vendor>, pack: Pack, m: Mapping) {
    if normalizePack(pack.key) == STANDARD then true
    else
      && PackVendor(pack) != ""
      && var vendor := VendorByName(names, vendors, PackVendor(pack));
         vendor.Some? && HasAttribute(names, vendors, vendor.value.name, Trim(m.attribute))
  }

  /** `buildVendorAttributeCoverage`. */
  function CoverageOf(names: Names, normalizePack: string -> string, vendors: seq<Vendor>, pack: Pack,
                      m: Mapping): AttributeCoverage {
    AttributeCoverage(Trim(m.semantic), Trim(m.attribute), Trim(m.direction),
                      Trim(m.direction) != CONTROLLER && Backs(names, normalizePack, vendors, pack, m))
  }

  /** The row compares the direction as written. */
  predicate Radius(m: Mapping) {
    m.direction != CONTROLLER
  }

  predicate Implemented(m: Mapping) {
    Lower(Trim(m.state)) == IMPLEMENTED
  }

  function CoverWith(names: Names, normalizePack: string -> string, vendors: seq<Vendor>,
                     pack: Pack): Mapping -> AttributeCoverage {
    (m: Mapping) => CoverageOf(names, normalizePack, vendors, pack, m)
  }

  function Matched(cover: Mapping -> AttributeCoverage): Mapping -> bool {
    (m: Mapping) => Radius(m) && cover(m).found
  }

  function Unmatched(cover: Mapping -> AttributeCoverage): Mapping -> bool {
    (m: Mapping) => Radius(m) && !cover(m).found
  }

  predicate Planned(m: Mapping) {
    !Implemented(m)
  }

  /** What the counters of a row mean: sizes of classes of mappings. */
  ghost predicate Counted(cover: Mapping -> AttributeCoverage, ms: seq<Mapping>, c: Counts) {
    && c.radius == Count(Radius, ms)
    && c.matched == Count(Matched(cover), ms) && c.missing == Count(Unmatched(cover), ms)
    && c.implemented == Count(Implemented, ms) && c.planned == Count(Planned, ms)
  }

  /** `vendorCoverageState`. */
  function CoverageState(packKey: string, vendorName: string, radius: nat, matched: nat): State {
    if radius == 0 then ControllerAPI
    else if packKey == STANDARD then StandardRadius
    else if matched == radius then DictionaryBacked
    else if matched > 0 then PartialDictionary
    else if vendorName != "" then DictionaryMissing
    else MetadataOnly
  }

  /** What a row says about its pack. */
  ghost predicate RowFor(names: Names, normalizePack: string -> string, vendors: seq<Vendor>, active: set<string>,
                         pack: Pack, row: Row) {
    var cover := CoverWith(names, normalizePack, vendors, pack);
    && row.packKey == normalizePack(pack.key) && row.vendorName == PackVendor(pack)
    && row.active == (row.packKey in active)
    && row.vendorFound == (row.vendorName != "" && VendorByName(names, vendors, row.vendorName).Some?)
    && row.packAttributes == |pack.attributes|
    && row.attributes == Mapped(cover, pack.attributes)
    && Counted(cover, pack.attributes, row.counts)
    && row.state == CoverageState(row.packKey, row.vendorName, row.counts.radius, row.counts.matched)
  }

  lemma {:induction false} CountedSnoc(cover: Mapping -> AttributeCoverage, ms: seq<Mapping>, c: Counts, m: Mapping)
    requires Counted(cover, ms, c)
    ensures Counted(cover, ms + [m], AddMapping(cover, c, m))
  {
    CountSnoc(Radius, ms, m);
    CountSnoc(Matched(cover), ms, m);
    CountSnoc(Unmatched(cover), ms, m);
    CountSnoc(Implemented, ms, m);
    CountSnoc(Planned, ms, m);
  }

  /** One turn of the row's loop. */
  function AddMapping(cover: Mapping -> AttributeCoverage, c: Counts, m: Mapping): Counts {
    var d := if m.direction == CONTROLLER then c
             else if cover(m).found then c.(radius := c.radius + 1, matched := c.matched + 1)
             else c.(radius := c.radius + 1, missing := c.missing + 1);
    if Lower(Trim(m.state)) == IMPLEMENTED then d.(implemented := d.implemented + 1) else d.(planned := d.planned + 1)
  }

  /** The loop over a pack's mappings. */
  method CoverMappings(cover: Mapping -> AttributeCoverage, ms: seq<Mapping>)
    returns (attributes: seq<AttributeCoverage>, c: Counts)
    ensures attributes == Mapped(cover, ms) && Counted(cover, ms, c)
  {
    attributes, c := [], Counts(0, 0, 0, 0, 0);
    for i := 0 to |ms|
      invariant |attributes| == i && forall k :: 0 <= k < i ==> attributes[k] == cover(ms[k])
      invariant Counted(cover, ms[..i], c)
    {
      CountedSnoc(cover, ms[..i], c, ms[i]);
      assert ms[..i + 1] == ms[..i] + [ms[i]];
      attributes := attributes + [cover(ms[i])];
      c := AddMapping(cover, c, ms[i]);
    }
    assert ms[..|ms|] == ms;
  }

  /** `buildVendorDictionaryCoverageRow`. */
  method BuildRow(names: Names, normalizePack: string -> string, vendors: seq<Vendor>, active: set<string>, pack: Pack)
    returns (row: Row)
    ensures RowFor(names, normalizePack, vendors, active, pack, row)
  {
    var packKey, vendorName := normalizePack(pack.key), PackVendor(pack);
    var attributes, c := CoverMappings(CoverWith(names, normalizePack, vendors, pack), pack.attributes);
    row := Row(packKey, vendorName, packKey in active, vendorName != ""
               && VendorByName(names, vendors, vendorName).Some?,
               |pack.attributes|, c, CoverageState(packKey, vendorName, c.radius, c.matched), attributes);
  }

  lemma {:induction false} CountsConserve(cover: Mapping -> AttributeCoverage, ms: seq<Mapping>)
    ensures Count(Matched(cover), ms) + Count(Unmatched(cover), ms) == Count(Radius, ms) <= |ms|
    ensures Count(Implemented, ms) + Count(Planned, ms) == |ms|
  {
    if ms != [] {
      CountsConserve(cover, ms[..|ms| - 1]);
    }
  }

  lemma {:induction false} BackedExactly(cover: Mapping -> AttributeCoverage, ms: seq<Mapping>)
    ensures Count(Radius, ms) > 0 && Count(Matched(cover), ms) == Count(Radius, ms)
       <==> (exists m <- ms :: Radius(m)) && forall m <- ms :: Radius(m) ==> cover(m).found
  {
    CountsConserve(cover, ms);
    CountZero(Radius, ms);
    CountZero(Unmatched(cover), ms);
    assert forall i :: 0 <= i < |ms| ==> ms[i] in ms;
  }

  /** Nothing is counted twice or dropped, and a pack outside the standard one is dictionary-backed
      exactly when it has RADIUS attributes and the catalog knows every one of them. */
  lemma {:induction false} RowConserves(names: Names, normalizePack: string -> string, vendors: seq<Vendor>,
                                        active: set<string>, pack: Pack, row: Row)
    requires RowFor(names, normalizePack, vendors, active, pack, row)
    ensures Conserved(row)
    ensures row.packKey != STANDARD ==>
              (row.state == DictionaryBacked <==>
                && (exists m <- pack.attributes :: Radius(m))
                && forall m <- pack.attributes :: Radius(m) ==> CoverWith(names, normalizePack, vendors, pack)(m).found)
  {
    CountsConserve(CoverWith(names, normalizePack, vendors, pack), pack.attributes);
    BackedExactly(CoverWith(names, normalizePack, vendors, pack), pack.attributes);
  }

  ghost predicate Conserved(row: Row) {
    && row.counts.matched + row.counts.missing == row.counts.radius <= row.packAttributes
    && row.counts.implemented + row.counts.planned == row.packAttributes
  }

  // ----- all packs

  predicate IsActive(r: Row) {
    r.active
  }

  predicate IsBacked(r: Row) {
    r.state == DictionaryBacked || r.state == StandardRadius
  }

  predicate IsPartial(r: Row) {
    r.state == PartialDictionary
  }

  predicate LacksVendor(r: Row) {
    r.vendorName != "" && !r.vendorFound && r.counts.radius > 0
  }

  /** The totals of a report are sums over its rows. */
  ghost predicate Totals(report: Report, rows: seq<Row>) {
    && report.rows == rows
    && report.active == Count(IsActive, rows) && report.backed == Count(IsBacked, rows)
    && report.partial == Count(IsPartial, rows) && report.missingVendors == Count(LacksVendor, rows)
    && report.implemented == Sum((r: Row) => r.counts.implemented, rows)
    && report.planned == Sum((r: Row) => r.counts.planned, rows)
    && report.matched == Sum((r: Row) => r.counts.matched, rows)
    && report.missing == Sum((r: Row) => r.counts.missing, rows)
  }

  ghost predicate IsReport(names: Names, normalizePack: string -> string, vendors: seq<Vendor>, packs: seq<Pack>,
                           active: set<string>, report: Report) {
    && report.packs == |packs|
    && RowsFor(names, normalizePack, vendors, active, packs, report.rows)
    && Totals(report, report.rows)
  }

  ghost predicate RowsFor(names: Names, normalizePack: string -> string, vendors: seq<Vendor>, active: set<string>,
                          packs: seq<Pack>, rows: seq<Row>) {
    |rows| == |packs| && forall i :: 0 <= i < |packs| ==>
      RowFor(names, normalizePack, vendors, active, packs[i], rows[i])
  }

  lemma {:induction false} RowsForSnoc(names: Names, normalizePack: string -> string, vendors: seq<Vendor>,
                                       active: set<string>, packs: seq<Pack>, rows: seq<Row>, pack: Pack, row: Row)
    requires RowsFor(names, normalizePack, vendors, active, packs, rows)
             && RowFor(names, normalizePack, vendors, active, pack, row)
    ensures RowsFor(names, normalizePack, vendors, active, packs + [pack], rows + [row])
  {
  }

  function AddRow(report: Report, row: Row): Report {
    Report(report.packs, report.active + One(row.active), report.backed + One(IsBacked(row)),
           report.partial + One(IsPartial(row)),
           report.missingVendors + One(LacksVendor(row)), report.implemented + row.counts.implemented, report.planned
             + row.counts.planned,
           report.matched + row.counts.matched, report.missing + row.counts.missing, report.rows + [row])
  }

  lemma {:induction false} AddRowTotals(report: Report, rows: seq<Row>, row: Row)
    requires Totals(report, rows)
    ensures Totals(AddRow(report, row), rows + [row])
  {
    CountSnoc(IsActive, rows, row);
    CountSnoc(IsBacked, rows, row);
    CountSnoc(IsPartial, rows, row);
    CountSnoc(LacksVendor, rows, row);
    SumSnoc((r: Row) => r.counts.implemented, rows, row);
    SumSnoc((r: Row) => r.counts.planned, rows, row);
    SumSnoc((r: Row) => r.counts.matched, rows, row);
    SumSnoc((r: Row) => r.counts.missing, rows, row);
  }

  /** `normalizedPackSet`. */
  function ActiveSet(normalizePack: string -> string, keys: seq<string>): set<string> {
    set k | k in keys && normalizePack(k) != "" :: normalizePack(k)
  }

  /** `BuildVendorDictionaryCoverageReport`. */
  method BuildReport(names: Names, normalizePack: string -> string, vendors: seq<Vendor>, packs: seq<Pack>,
                     activeKeys: seq<string>)
    returns (report: Report)
    ensures IsReport(names, normalizePack, vendors, packs, ActiveSet(normalizePack, activeKeys), report)
  {
    var active := ActiveSet(normalizePack, activeKeys);
    report := Report(|packs|, 0, 0, 0, 0, 0, 0, 0, 0, []);
    for i := 0 to |packs|
      invariant report.packs == |packs| && RowsFor(names, normalizePack, vendors, active, packs[..i], report.rows)
      invariant Totals(report, report.rows)
    {
      var row := BuildRow(names, normalizePack, vendors, active, packs[i]);
      RowsForSnoc(names, normalizePack, vendors, active, packs[..i], report.rows, packs[i], row);
      assert packs[..i + 1] == packs[..i] + [packs[i]];
      AddRowTotals(report, report.rows, row);
      report := AddRow(report, row);
    }
    assert packs[..|packs|] == packs;
  }

  lemma {:induction false} SumsConserve(rows: seq<Row>)
    requires forall i :: 0 <= i < |rows| ==> Conserved(rows[i])
    ensures Sum((r: Row) => r.counts.matched, rows) + Sum((r: Row) => r.counts.missing, rows)
            == Sum((r: Row) => r.counts.radius, rows)
    ensures Sum((r: Row) => r.counts.implemented, rows) + Sum((r: Row) => r.counts.planned, rows)
            == Sum((r: Row) => r.packAttributes, rows)
  {
    if rows != [] {
      SumsConserve(rows[..|rows| - 1]);
    }
  }

  /** Over all packs: matched and missing make up the RADIUS attributes, implemented and planned all attributes. */
  lemma {:induction false} ReportConserves(names: Names, normalizePack: string -> string, vendors: seq<Vendor>,
                                           packs: seq<Pack>, active: set<string>, report: Report)
    requires IsReport(names, normalizePack, vendors, packs, active, report)
    ensures report.matched + report.missing == Sum((r: Row) => r.counts.radius, report.rows)
    ensures report.implemented + report.planned == Sum((p: Pack) => |p.attributes|, packs)
  {
    forall i | 0 <= i < |packs| ensures Conserved(report.rows[i])
      && report.rows[i].packAttributes == |packs[i].attributes| {
      RowConserves(names, normalizePack, vendors, active, packs[i], report.rows[i]);
    }
    SumsConserve(report.rows);
    SameSizes(packs, report.rows);
  }

  lemma {:induction false} SameSizes(packs: seq<Pack>, rows: seq<Row>)
    requires |packs| == |rows| && forall i :: 0 <= i < |packs| ==> rows[i].packAttributes == |packs[i].attributes|
    ensures Sum((r: Row) => r.packAttributes, rows) == Sum((p: Pack) => |p.attributes|, packs)
  {
    if packs != [] {
      SameSizes(packs[..|packs| - 1], rows[..|rows| - 1]);
    }
  }
}

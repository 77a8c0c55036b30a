/** Certification of the partial mappings of the audit source (configs/vendor_mapping_certification.go):
    ten dimensions per mapping, a report, and a validator whose record checks decide the same thing as
    the record builder. */
module Certification {
  import opened Text
  import opened Sequences
  import opened Wrappers
  import opened Numbers
  import opened SemanticSets
  import opened RegistryModel
  import opened Registry
  import opened RuntimeMappings
  import opened Dimensions
  import ReleaseKeys
  import P = PackSummary
  import E = Evidence
  import L = LongTail

  const SCHEMA_VERSION := 1
  const BASELINE_COUNT := 141
  const SESSION_ACTION := "session.action"

  /** Semantics the reply compiler renders. */
  const RENDERED := [L.ROLE, L.BANDWIDTH_PROFILE, L.VLAN, L.POLICY_TAG, L.ACL, L.DYNAMIC_ACL, L.PORTAL_PROFILE,
                     L.DEVICE_GROUP, L.TENANT,
                     L.UPLOAD_BANDWIDTH, L.DOWNLOAD_BANDWIDTH, L.QUARANTINE, SESSION_ACTION, L.DATA_QUOTA]

  /** Semantics with an enforcement owner. */
  const ENFORCED := RENDERED + [L.ACCOUNTING_IDENTITY, L.DEVICE_POSTURE, L.ACCOUNTING_COUNTERS]

  /** `claimed` is the claim "software ready, external validation needed"; otherwise the claim is "blocked". */
  datatype Record = Record(
    id: string, entry: Entry, primary: string, dimensions: seq<Dimension>, blockers: seq<DimensionKey>,
    softwareReady: bool, certified: bool, certification: CertificationState, claimed: bool,
    readyForExternal: bool, externalRequired: bool)

  /** The counters of passed dimensions. */
  datatype Wiring = Wiring(runtimeDecoders: nat, genericCodecs: nat, replies: nat, policies: nat, storage: nat,
                           enforcement: nat, apiUI: nat, observability: nat)

  datatype Summary = Summary(certified: nat, blocked: nat, readyForExternal: nat, externalRequired: nat, wiring: Wiring,
                             fingerprint: string)

  /** The counters copied from the registry, and the number of vendors. */
  datatype Totals = Totals(registryMapped: nat, runtimeMappings: nat, vendors: nat)

  /** One vendor of the report, as a group of its records. */
  type VendorItem = P.Item<(string, nat)>

  datatype Report = Report(version: int, profileID: string, sourceSHA256: string, baseline: nat, summary: Summary,
                           totals: Totals, vendorSummaries: seq<VendorItem>, records: seq<Record>)

  /** What the builder reads: the finished registry, the evidence report's records, the state of each
      product semantic, the codec shape of an entry and the fingerprint of the records. */
  datatype Context = Context(names: Names, rows: seq<Entry>, entries: seq<Entry>, order: map<string, nat>,
                             evidence: seq<E.Record>, semanticState: map<string, string>, grouped: Entry -> bool,
                             sha: string, digest: seq<Record> -> string)

  // ----- the baseline

  predicate IsPartial(e: Entry) {
    e.status == PARTIAL
  }

  predicate BaselineNotAfter(a: Entry, b: Entry) {
    if a.vendor != b.vendor then Less(a.vendor, b.vendor)
    else if a.number != b.number then a.number < b.number
    else !Less(b.attribute, a.attribute)
  }

  /** `partialAuditRegistryEntries` on parsed rows. */
  function Baseline(rows: seq<Entry>): seq<Entry> {
    StableSort(BaselineNotAfter, Filter(IsPartial, rows))
  }

  lemma {:induction false} BaselineMembers(rows: seq<Entry>, b: Entry)
    ensures b in Baseline(rows) <==> b in rows && IsPartial(b)
  {
    StableSortPermutes(BaselineNotAfter, Filter(IsPartial, rows));
    FilterMembers(IsPartial, rows);
    assert b in Baseline(rows) <==> b in multiset(Baseline(rows));
    assert b in Filter(IsPartial, rows) <==> b in multiset(Filter(IsPartial, rows));
  }

  // ----- one mapping

  /** `mergeCertificationEntry`. */
  function MergeEntry(b: Entry, current: Entry): Entry {
    b.(key := current.key, wireKey := current.wireKey,
       packKey := L.FirstNonEmpty(current.packKey, b.packKey),
       semantic := L.FirstNonEmpty(current.semantic, b.semantic),
       provenance := L.FirstNonEmpty(current.provenance, b.provenance),
       directions := current.directions,
       decodeKind := current.decodeKind, decodeSemantic := current.decodeSemantic, decodeScale := current.decodeScale,
       status := L.FirstNonEmpty(current.status, b.status))
  }

  /** `directionsContainAny` for targets already in lower case. */
  predicate Directed(e: Entry, targets: set<string>) {
    exists d <- e.directions :: Lower(Trim(d)) in targets
  }

  predicate Classified(e: Entry) {
    e.packKey != "" && e.semantic != "" && e.directions != []
  }

  predicate Wired(e: Entry) {
    e.pen != 0 && e.attribute != "" && e.wireKey != "" && e.wireType != ""
  }

  function Verdict(ok: bool): DimensionState {
    if ok then Passed else Blocked
  }

  function DictionaryDimension(e: Entry): Dimension {
    Dimension(DictionaryKey, Verdict(e.status == PARTIAL && Wired(e) && Classified(e)), true)
  }

  function RegistryDimension(e: Entry, found: bool): Dimension {
    Dimension(RegistryKey, Verdict(found && e.status != MISSING), true)
  }

  function PacketDimension(e: Entry, runtimeDecoder: bool, grouped: bool): Dimension {
    if !Directed(e, {"inbound", "accounting"}) then Dimension(PacketKey, NotApplicable, false)
    else Dimension(PacketKey, Verdict(runtimeDecoder || grouped || e.wireType != ""), true)
  }

  function ReplyDimension(e: Entry, proven: bool): Dimension {
    if !Directed(e, {"outbound_reply"}) then Dimension(ReplyKey, NotApplicable, false)
    else Dimension(ReplyKey, Verdict(proven || First(e.semantic) in RENDERED), true)
  }

  function PolicyDimension(e: Entry, semanticState: map<string, string>): Dimension {
    var primary := First(e.semantic);
    Dimension(PolicyKey, Verdict(primary != "" && primary in semanticState && semanticState[primary] != ""), true)
  }

  function EnforcementDimension(e: Entry): Dimension {
    Dimension(EnforcementKey, Verdict(First(e.semantic) in ENFORCED), true)
  }

  function DimensionsOf(e: Entry, found: bool, runtimeDecoder: bool, grouped: bool, proven: bool,
                        semanticState: map<string, string>): seq<Dimension> {
    [DictionaryDimension(e), RegistryDimension(e, found), PacketDimension(e, runtimeDecoder, grouped),
     ReplyDimension(e, proven), PolicyDimension(e, semanticState), Dimension(StorageKey, Passed, true),
     EnforcementDimension(e), Dimension(APIUIKey, Passed, true),
     Dimension(ObservabilityKey, Passed, true), Dimension(ExternalKey, ExternalRequired, false)]
  }

  function RecordID(e: Entry): string {
    SpacesToDashes("nas-0060:" + Lower(e.packKey) + ":" + Decimal(e.pen) + ":" + Lower(e.attribute))
  }

  /** What a record ID tells apart: pack key and attribute ignoring case and spaces for dashes, and number. */
  function IDFields(e: Entry): (string, nat, string) {
    (SpacesToDashes(Lower(e.packKey)), e.pen, SpacesToDashes(Lower(e.attribute)))
  }

  /** Record IDs of entries whose pack keys have no colon are equal exactly when these fields are. */
  lemma {:induction false} SameIDExactly(a: Entry, b: Entry)
    requires ':' !in a.packKey && ':' !in b.packKey
    ensures RecordID(a) == RecordID(b) <==> IDFields(a) == IDFields(b)
  {
    var x, y := Decimal(a.pen) + ":" + Lower(a.attribute), Decimal(b.pen) + ":" + Lower(b.attribute);
    RecordIDParts(a);
    RecordIDParts(b);
    LowerKeepsFree(a.packKey);
    LowerKeepsFree(b.packKey);
    DashedCut("nas-0060", Lower(a.packKey) + ":" + x, "nas-0060", Lower(b.packKey) + ":" + y);
    DashedCut(Lower(a.packKey), x, Lower(b.packKey), y);
    NumberIsPlain(a.pen);
    NumberIsPlain(b.pen);
    DashedCut(Decimal(a.pen), Lower(a.attribute), Decimal(b.pen), Lower(b.attribute));
    if Decimal(a.pen) == Decimal(b.pen) {
      DecimalInjective(a.pen, b.pen);
    }
  }

  lemma {:induction false} RecordIDParts(e: Entry)
    ensures RecordID(e) == SpacesToDashes("nas-0060" + ":"
                                          + (Lower(e.packKey) + ":" + (Decimal(e.pen) + ":" + Lower(e.attribute))))
  {
    assert "nas-0060:" == "nas-0060" + ":";
    assert "nas-0060:" + Lower(e.packKey) + ":" + Decimal(e.pen) + ":" + Lower(e.attribute)
        == "nas-0060" + ":" + (Lower(e.packKey) + ":" + (Decimal(e.pen) + ":" + Lower(e.attribute)));
  }

  lemma {:induction false} LowerKeepsFree(s: string)
    requires ':' !in s
    ensures ':' !in Lower(s)
  {
    forall i | 0 <= i < |s| ensures Lower(s)[i] != ':' {
      assert s[i] in s;
    }
  }

  lemma {:induction false} NumberIsPlain(n: nat)
    ensures ':' !in Decimal(n) && SpacesToDashes(Decimal(n)) == Decimal(n)
  {
    DecimalDigits(n);
  }

  /** Two different attributes of one pack share a record ID. */
  lemma {:induction false} SpaceAndDashShareID(e: Entry)
    requires ':' !in e.packKey
    ensures RecordID(e.(attribute := "a b")) == RecordID(e.(attribute := "a-b"))
  {
    SameIDExactly(e.(attribute := "a b"), e.(attribute := "a-b"));
    assert SpacesToDashes(Lower("a b")) == SpacesToDashes(Lower("a-b"));
  }

  /** `buildVendorMappingCertificationRecord` from the dimensions on. */
  function RecordFrom(e: Entry, dims: seq<Dimension>): Record {
    var ready := Blockers(dims) == [];
    Record(RecordID(e), e, First(e.semantic), dims, Blockers(dims), ready, ready, Required, ready, ready, true)
  }

  // ----- what a record is built from

  predicate PassedReply(d: Dimension) {
    d.key == ReplyKey && d.state == Passed
  }

  /** Some evidence record of this wire key proves reply rendering. */
  predicate Proven(evidence: seq<E.Record>, wireKey: string) {
    exists r <- evidence :: !Blank(r.wireKey) && r.wireKey == wireKey && exists d <- r.dimensions :: PassedReply(d)
  }

  /** `runtimeEvidenceByWire`. */
  function RuntimeWires(table: seq<RuntimeMapping>): set<string> {
    set m | m in table :: WireKey(m.vendorID, m.octet)
  }

  /** A wire key is decoded at run time exactly when some registry entry with a decoder and a one-octet
      number has it. */
  lemma {:induction false} RuntimeWiresExactly(order: map<string, nat>, entries: seq<Entry>, w: string)
    ensures w in RuntimeWires(Table(order, entries)) <==>
            exists e <- entries :: Eligible(e) && WireKey(e.pen, e.number) == w
  {
    var table := Table(order, entries);
    if w in RuntimeWires(table) {
      var m :| m in table && WireKey(m.vendorID, m.octet) == w;
      MappingsAreFirsts(order, entries, m);
      var i: nat :| FirstWithKey(entries, i, MappingKey(m)) && m == ToMapping(entries[i])
        && m.octet == entries[i].number;
      assert entries[i] in entries && Eligible(entries[i]) && WireKey(entries[i].pen, entries[i].number) == w;
    }
    if e :| e in entries && Eligible(e) && WireKey(e.pen, e.number) == w {
      EligibleIsMapped(order, entries, e);
      var m :| m in table && MappingKey(m) == EntryKey(e);
      assert WireKey(m.vendorID, m.octet) == w;
    }
  }

  /** The entry a record is about, after the lookup. */
  function Certifiable(b: Entry, found: Option<Entry>): Entry {
    if found.Some? then MergeEntry(b, found.value) else b
  }

  function BuildRecord(ctx: Context, wires: set<string>, b: Entry, found: Option<Entry>): Record {
    var e := Certifiable(b, found);
    var grouped := ctx.grouped(if found.Some? then found.value else b);
    RecordFrom(e, DimensionsOf(e, found.Some?, e.wireKey in wires, grouped, Proven(ctx.evidence, e.wireKey),
                               ctx.semanticState))
  }

  ghost function FoundRow(ctx: Context, b: Entry): Option<Entry> {
    NaiveName(ctx.names, ctx.entries, b.vendor, b.attribute)
  }

  /** Builds from a baseline row and the entry that a linear search finds for it. */
  ghost function Located<R>(ctx: Context, build: (Entry, Option<Entry>) -> R): Entry -> R {
    (b: Entry) => build(b, FoundRow(ctx, b))
  }

  function Builder(ctx: Context, wires: set<string>): (Entry, Option<Entry>) -> Record {
    (b: Entry, found: Option<Entry>) => BuildRecord(ctx, wires, b, found)
  }

  ghost function RecordOf(ctx: Context): Entry -> Record {
    Located(ctx, Builder(ctx, RuntimeWires(Table(ctx.order, ctx.entries))))
  }

  // ----- the report

  predicate RecordNotAfter(a: Record, b: Record) {
    !Less(b.id, a.id)
  }

  function IDOf(r: Record): string {
    r.id
  }

  predicate IsCertified(r: Record) {
    r.certified
  }

  predicate IsReadyForExternal(r: Record) {
    r.readyForExternal
  }

  predicate NeedsExternal(r: Record) {
    r.externalRequired
  }

  function PassedAs(key: DimensionKey): Dimension -> bool {
    (d: Dimension) => d.key == key && d.state == Passed
  }

  function PassedRequired(key: DimensionKey): Dimension -> bool {
    (d: Dimension) => d.key == key && d.state == Passed && d.required
  }

  predicate PassedOptionalPacket(d: Dimension) {
    d.key == PacketKey && d.state == Passed && !d.required
  }

  /** `w` counts the passed dimensions of `from` and then those of `dims`. */
  ghost predicate Adds(w: Wiring, from: Wiring, dims: seq<Dimension>) {
    && w.runtimeDecoders == from.runtimeDecoders + Count(PassedRequired(PacketKey), dims)
    && w.genericCodecs == from.genericCodecs + Count(PassedOptionalPacket, dims)
    && w.replies == from.replies + Count(PassedRequired(ReplyKey), dims)
    && w.policies == from.policies + Count(PassedAs(PolicyKey), dims)
    && w.storage == from.storage + Count(PassedAs(StorageKey), dims)
    && w.enforcement == from.enforcement + Count(PassedAs(EnforcementKey), dims)
    && w.apiUI == from.apiUI + Count(PassedAs(APIUIKey), dims)
    && w.observability == from.observability + Count(PassedAs(ObservabilityKey), dims)
  }

  /** The dimension switch of the summary loop. */
  function AddDimension(w: Wiring, d: Dimension): Wiring {
    if d.state != Passed then w
    else match d.key
      case PacketKey => if d.required then w.(runtimeDecoders := w.runtimeDecoders + 1)
        else w.(genericCodecs := w.genericCodecs + 1)
      case ReplyKey => if d.required then w.(replies := w.replies + 1) else w
      case PolicyKey => w.(policies := w.policies + 1)
      case StorageKey => w.(storage := w.storage + 1)
      case EnforcementKey => w.(enforcement := w.enforcement + 1)
      case APIUIKey => w.(apiUI := w.apiUI + 1)
      case ObservabilityKey => w.(observability := w.observability + 1)
      case _ => w
  }

  lemma {:induction false} AddsStep(w: Wiring, from: Wiring, dims: seq<Dimension>, d: Dimension)
    requires Adds(w, from, dims)
    ensures Adds(AddDimension(w, d), from, dims + [d])
  {
    CountSnoc(PassedRequired(PacketKey), dims, d);
    CountSnoc(PassedOptionalPacket, dims, d);
    CountSnoc(PassedRequired(ReplyKey), dims, d);
    CountSnoc(PassedAs(PolicyKey), dims, d);
    CountSnoc(PassedAs(StorageKey), dims, d);
    CountSnoc(PassedAs(EnforcementKey), dims, d);
    CountSnoc(PassedAs(APIUIKey), dims, d);
    CountSnoc(PassedAs(ObservabilityKey), dims, d);
  }

  /** The dimension loop of the summary. */
  method AddDimensions(from: Wiring, dims: seq<Dimension>) returns (w: Wiring)
    ensures Adds(w, from, dims)
  {
    w := from;
    for i := 0 to |dims|
      invariant Adds(w, from, dims[..i])
    {
      AddsStep(w, from, dims[..i], dims[i]);
      assert dims[..i + 1] == dims[..i] + [dims[i]];
      w := AddDimension(w, dims[i]);
    }
    assert dims[..|dims|] == dims;
  }

  function AllDimensions(rs: seq<Record>): seq<Dimension> {
    if rs == [] then [] else AllDimensions(rs[..|rs| - 1]) + rs[|rs| - 1].dimensions
  }

  lemma {:induction false} AllDimensionsSnoc(rs: seq<Record>, r: Record)
    ensures AllDimensions(rs + [r]) == AllDimensions(rs) + r.dimensions
  {
    assert (rs + [r])[..|rs|] == rs;
  }

  const NO_WIRING := Wiring(0, 0, 0, 0, 0, 0, 0, 0)

  /** The states counted record by record, the wiring over all dimensions of all records. */
  ghost predicate Summarizes(s: Summary, rs: seq<Record>) {
    StatesCounted(s, rs) && Adds(s.wiring, NO_WIRING, AllDimensions(rs))
  }

  ghost predicate StatesCounted(s: Summary, rs: seq<Record>) {
    && s.certified == Count(IsCertified, rs) && s.blocked == |rs| - Count(IsCertified, rs)
    && s.readyForExternal == Count(IsReadyForExternal, rs) && s.externalRequired == Count(NeedsExternal, rs)
  }

  function Tally(s: Summary, r: Record): Summary {
    var s1 := if r.certified then s.(certified := s.certified + 1) else s.(blocked := s.blocked + 1);
    var s2 := if r.readyForExternal then s1.(readyForExternal := s1.readyForExternal + 1) else s1;
    if r.externalRequired then s2.(externalRequired := s2.externalRequired + 1) else s2
  }

  lemma {:induction false} TallyStep(s: Summary, rs: seq<Record>, r: Record)
    requires StatesCounted(s, rs)
    ensures StatesCounted(Tally(s, r), rs + [r])
  {
    CountSnoc(IsCertified, rs, r);
    CountAll(IsCertified, rs);
    CountSnoc(IsReadyForExternal, rs, r);
    CountSnoc(NeedsExternal, rs, r);
  }

  lemma {:induction false} AddsThen(w: Wiring, mid: Wiring, from: Wiring, a: seq<Dimension>, b: seq<Dimension>)
    requires Adds(mid, from, a) && Adds(w, mid, b)
    ensures Adds(w, from, a + b)
  {
    CountConcat(PassedRequired(PacketKey), a, b);
    CountConcat(PassedOptionalPacket, a, b);
    CountConcat(PassedRequired(ReplyKey), a, b);
    CountConcat(PassedAs(PolicyKey), a, b);
    CountConcat(PassedAs(StorageKey), a, b);
    CountConcat(PassedAs(EnforcementKey), a, b);
    CountConcat(PassedAs(APIUIKey), a, b);
    CountConcat(PassedAs(ObservabilityKey), a, b);
  }

  /** One turn of the summary loop. */
  method SummarizeNext(s: Summary, ghost rs: seq<Record>, r: Record) returns (after: Summary)
    requires Summarizes(s, rs)
    ensures Summarizes(after, rs + [r]) && after.fingerprint == s.fingerprint
  {
    TallyStep(s, rs, r);
    AllDimensionsSnoc(rs, r);
    var wiring := AddDimensions(s.wiring, r.dimensions);
    AddsThen(wiring, s.wiring, NO_WIRING, AllDimensions(rs), r.dimensions);
    after := Tally(s, r).(wiring := wiring);
  }

  /** `summarizeVendorMappingCertification`. */
  method Summarize(rs: seq<Record>, fingerprint: string) returns (s: Summary)
    ensures Summarizes(s, rs) && s.fingerprint == fingerprint
  {
    s := Summary(0, 0, 0, 0, NO_WIRING, fingerprint);
    for i := 0 to |rs|
      invariant Summarizes(s, rs[..i]) && s.fingerprint == fingerprint
    {
      assert rs[..i + 1] == rs[..i] + [rs[i]];
      s := SummarizeNext(s, rs[..i], rs[i]);
    }
    assert rs[..|rs|] == rs;
  }

  // ----- the per-vendor list

  /** A record as the grouping counts it. */
  function ToCounted(r: Record): P.Record {
    P.Record(r.entry.vendor, r.entry.pen, r.entry.packKey, "", "", r.certified, r.externalRequired)
  }

  function FoldedVendor(r: P.Record): (string, nat) {
    (Lower(r.vendor), r.pen)
  }

  predicate VendorNotAfter(a: VendorItem, b: VendorItem) {
    if a.first.vendor != b.first.vendor then Less(a.first.vendor, b.first.vendor) else a.first.pen <= b.first.pen
  }

  lemma {:induction false} VendorOrder()
    ensures TotalPreorder(VendorNotAfter)
  {
    forall x, y ensures VendorNotAfter(x, y) || VendorNotAfter(y, x) {
      LessTotal(x.first.vendor, y.first.vendor);
    }
    forall x, y, z | VendorNotAfter(x, y) && VendorNotAfter(y, z) ensures VendorNotAfter(x, z) {
      if Less(x.first.vendor, y.first.vendor) && Less(y.first.vendor, z.first.vendor) {
        LessTransitive(x.first.vendor, y.first.vendor, z.first.vendor);
        LessDiffers(x.first.vendor, z.first.vendor);
      }
    }
  }

  lemma {:induction false} LessDiffers(a: string, b: string)
    requires Less(a, b)
    ensures a != b
  {
    LessAsymmetric(a, b);
  }

  /** What the per-vendor list is: one exact group per folded vendor name and number, in order. */
  ghost predicate VendorsSummarized(rs: seq<Record>, out: seq<VendorItem>) {
    P.SummarizedBy(FoldedVendor, Mapped(ToCounted, rs), out) && SortedBy(VendorNotAfter, out)
  }

  /** `summarizeVendorMappingCertificationVendors`. */
  method SummarizeVendors(rs: seq<Record>) returns (out: seq<VendorItem>)
    ensures VendorsSummarized(rs, out)
  {
    VendorOrder();
    out := P.SummarizeBy(VendorNotAfter, FoldedVendor, Mapped(ToCounted, rs));
  }

  /** The records of a vendor, whatever the case of its name. */
  function OfVendor(vendor: string, pen: nat): Record -> bool {
    (r: Record) => Lower(r.entry.vendor) == Lower(vendor) && r.entry.pen == pen
  }

  /** Every record's vendor has one item, which counts exactly the records of the vendor and shows the first
      spelling. */
  lemma {:induction false} VendorListSays(rs: seq<Record>, out: seq<VendorItem>, r: Record)
    requires VendorsSummarized(rs, out) && r in rs
    ensures exists item <- out ::
              var mine := Filter(OfVendor(r.entry.vendor, r.entry.pen), rs);
              && mine != [] && item.first == ToCounted(mine[0]) && item.counts == P.Tally(Mapped(ToCounted, mine))
  {
    var counted := Mapped(ToCounted, rs);
    var i :| 0 <= i < |rs| && rs[i] == r;
    var k := (Lower(r.entry.vendor), r.entry.pen);
    assert counted[i] in counted && FoldedVendor(counted[i]) == k;
    var j :| 0 <= j < |out| && Mapped(P.KeyOf, out)[j] == k;
    assert P.GroupIs(FoldedVendor, counted, k, out[j]);
    SameFilter(rs, r.entry.vendor, r.entry.pen);
    assert out[j] in out;
  }

  lemma {:induction false} SameFilter(rs: seq<Record>, vendor: string, pen: nat)
    ensures Filter(P.Among(FoldedVendor, (Lower(vendor), pen)), Mapped(ToCounted, rs))
         == Mapped(ToCounted, Filter(OfVendor(vendor, pen), rs))
  {
    if rs != [] {
      var mine, c := Filter(OfVendor(vendor, pen), rs[1..]), ToCounted(rs[0]);
      SameFilter(rs[1..], vendor, pen);
      assert Mapped(ToCounted, rs)[1..] == Mapped(ToCounted, rs[1..]) && Mapped(ToCounted, rs)[0] == c;
      assert P.Among(FoldedVendor, (Lower(vendor), pen))(c) <==> OfVendor(vendor, pen)(rs[0]);
      MappedConcat(ToCounted, [rs[0]], mine);
      assert Mapped(ToCounted, [rs[0]]) == [c];
    }
  }

  /** The per-vendor list does not depend on the iteration order of the map. */
  lemma {:induction false} VendorListFixed(rs: seq<Record>, a: seq<VendorItem>, b: seq<VendorItem>)
    requires VendorsSummarized(rs, a) && VendorsSummarized(rs, b)
    ensures a == b
  {
    var counted := Mapped(ToCounted, rs);
    forall x, y | x in a && y in a && VendorNotAfter(x, y) && VendorNotAfter(y, x) ensures x.key == y.key {
      P.GroupKey(FoldedVendor, counted, x);
      P.GroupKey(FoldedVendor, counted, y);
      if Less(x.first.vendor, y.first.vendor) {
        LessAsymmetric(x.first.vendor, y.first.vendor);
      }
    }
    P.SortedReadings(VendorNotAfter, FoldedVendor, counted, a, b);
  }

  /** The part of a report that the validator judges. */
  ghost predicate IsJudged(ctx: Context, report: Report) {
    && report.version == SCHEMA_VERSION && report.profileID == ReleaseKeys.PROFILE_ID
    && report.sourceSHA256 == ctx.sha && report.baseline == |Baseline(ctx.rows)|
    && report.records == StableSort(RecordNotAfter, Mapped(RecordOf(ctx), Baseline(ctx.rows)))
    && Summarizes(report.summary, report.records)
    && report.summary.fingerprint == "sha256:" + ctx.digest(report.records)
  }

  /** The whole report: the judged part, the totals and the per-vendor list. */
  ghost predicate IsReport(ctx: Context, report: Report) {
    && IsJudged(ctx, report)
    && report.totals == Totals(CountMapped(ctx.entries), |Table(ctx.order, ctx.entries)|, |report.vendorSummaries|)
    && VendorsSummarized(report.records, report.vendorSummaries)
  }

  method BuildRow<R>(ctx: Context, registry: AttributeRegistry, build: (Entry, Option<Entry>) -> R, b: Entry)
    returns (record: R)
    requires registry.Valid() && registry.names == ctx.names && registry.entries == ctx.entries
    ensures record == Located(ctx, build)(b)
  {
    var found := registry.LookupName(b.vendor, b.attribute);
    assert found == FoundRow(ctx, b);
    record := build(b, found);
  }

  /** The baseline loop. */
  method BuildRecords<R>(ctx: Context, registry: AttributeRegistry, build: (Entry, Option<Entry>) -> R,
                         baseline: seq<Entry>) returns (records: seq<R>)
    requires registry.Valid() && registry.names == ctx.names && registry.entries == ctx.entries
    ensures records == Mapped(Located(ctx, build), baseline)
  {
    records := [];
    ghost var f := Located(ctx, build);
    for k := 0 to |baseline|
      invariant |records| == k && forall i :: 0 <= i < k ==> records[i] == f(baseline[i])
    {
      var record := BuildRow(ctx, registry, build, baseline[k]);
      records := records + [record];
    }
  }

  /** `BuildVendorMappingCertificationReport` against a finished registry. */
  method BuildReport(ctx: Context, registry: AttributeRegistry) returns (report: Report)
    requires registry.Valid() && registry.names == ctx.names && registry.entries == ctx.entries
    ensures IsReport(ctx, report)
  {
    var partials := Collect(IsPartial, (e: Entry) => e, ctx.rows);
    assert partials == Filter(IsPartial, ctx.rows);
    var baseline := StableSort(BaselineNotAfter, partials);
    var mappings := BuildRuntimeMappings(ctx.order, registry.entries);
    var records := BuildRecords(ctx, registry, Builder(ctx, RuntimeWires(mappings)), baseline);
    records := StableSort(RecordNotAfter, records);
    var summary := Summarize(records, "sha256:" + ctx.digest(records));
    var vendors := SummarizeVendors(records);
    var totals := Totals(registry.mappedCount, |mappings|, |vendors|);
    report := Report(SCHEMA_VERSION, ReleaseKeys.PROFILE_ID, ctx.sha, |baseline|, summary, totals, vendors, records);
  }

  // ----- the validator

  predicate AcceptableRecord(r: Record) {
    && !Blank(r.id) && r.softwareReady && r.certification == Required
    && r.certified && r.readyForExternal && r.externalRequired && |r.dimensions| > 0
    && forall d <- r.dimensions :: d.required ==> d.state == Passed
  }

  predicate AcceptableHeader(report: Report) {
    && report.version == SCHEMA_VERSION && !Blank(report.profileID)
    && !Blank(report.sourceSHA256) && report.baseline == BASELINE_COUNT && |report.records| == BASELINE_COUNT
    && report.summary.certified == BASELINE_COUNT && report.summary.blocked == 0
    && report.summary.externalRequired == BASELINE_COUNT && report.summary.fingerprint != ""
  }

  ghost predicate Acceptable(report: Report) {
    && AcceptableHeader(report)
    && (forall i :: 0 <= i < |report.records| ==> AcceptableRecord(report.records[i]))
    && UniqueKeys(IDOf, report.records)
  }

  /** `ValidateVendorMappingCertificationReport`. */
  method ValidateReport(report: Report) returns (ok: bool)
    ensures ok <==> Acceptable(report)
  {
    if !AcceptableHeader(report) {
      return false;
    }
    ok := ValidateEach(AcceptableRecord, IDOf, report.records);
  }

  // ----- laws

  /** The builder's "no required dimension blocked" is the validator's "every required dimension passed". */
  lemma {:induction false} GatesAgree(e: Entry, found: bool, runtimeDecoder: bool, grouped: bool, proven: bool,
                                      semanticState: map<string, string>)
    ensures var dims := DimensionsOf(e, found, runtimeDecoder, grouped, proven, semanticState);
            Blockers(dims) == [] <==> forall d <- dims :: d.required ==> d.state == Passed
  {
    var dims := DimensionsOf(e, found, runtimeDecoder, grouped, proven, semanticState);
    BlockersExactly(dims);
    assert forall d <- dims :: d.required ==> d.state == Passed || d.state == Blocked;
  }

  lemma {:induction false} IDIsText(e: Entry)
    ensures !Blank(RecordID(e))
  {
    BlankIsAllSpace(RecordID(e));
    assert RecordID(e)[0] == 'n';
  }

  /** What decides a record: its certified flag, the validator's record checks and its required
      dimensions say the same; it always needs external validation, and a passed packet dimension is
      a required one. */
  ghost predicate Settled(r: Record) {
    && (r.certified <==> AcceptableRecord(r))
    && (r.certified <==> forall d <- r.dimensions :: d.required ==> d.state == Passed)
    && r.certified == r.readyForExternal && r.externalRequired
    && (forall i :: 0 <= i < |r.dimensions| ==> !PassedOptionalPacket(r.dimensions[i]))
  }

  lemma {:induction false} RecordSettled(e: Entry, dims: seq<Dimension>)
    requires dims != [] && (Blockers(dims) == [] <==> forall d <- dims :: d.required ==> d.state == Passed)
    requires forall i :: 0 <= i < |dims| ==> !PassedOptionalPacket(dims[i])
    ensures Settled(RecordFrom(e, dims))
  {
    IDIsText(e);
  }

  /** Every built record is settled. */
  lemma {:induction false} CertifiedIsAcceptable(ctx: Context, b: Entry)
    ensures Settled(RecordOf(ctx)(b))
  {
    var found := FoundRow(ctx, b);
    BuildSettled(ctx, RuntimeWires(Table(ctx.order, ctx.entries)), b, found);
    assert RecordOf(ctx)(b) == BuildRecord(ctx, RuntimeWires(Table(ctx.order, ctx.entries)), b, found);
  }

  lemma {:induction false} BuildSettled(ctx: Context, wires: set<string>, b: Entry, found: Option<Entry>)
    ensures Settled(BuildRecord(ctx, wires, b, found))
  {
    var e := Certifiable(b, found);
    BuiltSettled(e, found.Some?, e.wireKey in wires, ctx.grouped(if found.Some? then found.value else b),
                 Proven(ctx.evidence, e.wireKey), ctx.semanticState);
  }

  lemma {:induction false} BuiltSettled(e: Entry, found: bool, runtimeDecoder: bool, grouped: bool, proven: bool,
                                        semanticState: map<string, string>)
    ensures Settled(RecordFrom(e, DimensionsOf(e, found, runtimeDecoder, grouped, proven, semanticState)))
  {
    GatesAgree(e, found, runtimeDecoder, grouped, proven, semanticState);
    PacketsRequired(e, found, runtimeDecoder, grouped, proven, semanticState);
    RecordSettled(e, DimensionsOf(e, found, runtimeDecoder, grouped, proven, semanticState));
  }

  lemma {:induction false} PacketsRequired(e: Entry, found: bool, runtimeDecoder: bool, grouped: bool, proven: bool,
                                           semanticState: map<string, string>)
    ensures var dims := DimensionsOf(e, found, runtimeDecoder, grouped, proven, semanticState);
            forall i :: 0 <= i < |dims| ==> !PassedOptionalPacket(dims[i])
  {
  }

  /** Every baseline row of a finished registry is found, evolved from that row, and still partial. */
  lemma {:induction false} BaselineIsFound(ctx: Context, b: Entry)
    requires BuiltFrom(ctx.names, ctx.rows, ctx.entries) && b in Baseline(ctx.rows)
    ensures var found := FoundRow(ctx, b);
            && found.Some? && Evolves(b, found.value) && found.value.status == PARTIAL
            && Certifiable(b, found).status == PARTIAL
  {
    BaselineMembers(ctx.rows, b);
    var i: nat :| i < |ctx.rows| && ctx.rows[i] == b;
    assert PARTIAL != MISSING by { assert PARTIAL[0] != MISSING[0]; }
    RowsAreFound(ctx.names, ctx.rows, ctx.entries, i);
    L.VisibleIsText(PARTIAL);
    StripFixed(IsSpace, PARTIAL);
  }

  /** So the typed_registry dimension of a baseline row is never blocked. */
  lemma {:induction false} RegistryNeverBlocks(ctx: Context, b: Entry)
    requires BuiltFrom(ctx.names, ctx.rows, ctx.entries) && b in Baseline(ctx.rows)
    ensures RegistryPassed(RecordOf(ctx)(b).dimensions)
  {
    BaselineIsFound(ctx, b);
    assert PARTIAL[0] != MISSING[0];
    var found := FoundRow(ctx, b);
    var e := Certifiable(b, found);
    RegistryPasses(e, e.wireKey in RuntimeWires(Table(ctx.order, ctx.entries)), ctx.grouped(found.value),
                   Proven(ctx.evidence, e.wireKey), ctx.semanticState);
  }

  lemma {:induction false} RegistryPasses(e: Entry, runtimeDecoder: bool, grouped: bool, proven: bool,
                                          semanticState: map<string, string>)
    requires e.status != MISSING
    ensures RegistryPassed(DimensionsOf(e, true, runtimeDecoder, grouped, proven, semanticState))
  {
  }

  /** The second of the ten dimensions is the typed registry one, and it passed. */
  ghost predicate RegistryPassed(dims: seq<Dimension>) {
    |dims| == 10 && dims[1] == Dimension(RegistryKey, Passed, true)
  }

  // ----- what a record says, from the row and the entry found for it

  /** The text of the found entry when it is present, that of the row otherwise. */
  function Present(found: string, row: string): string {
    if Blank(found) then Trim(row) else Trim(found)
  }

  /** Of the found entry a record has the keys, the directions, the decoder and, when present, the texts;
      of the row it has everything that says which attribute it is. */
  ghost predicate SaysEntry(b: Entry, f: Entry, e: Entry) {
    && e.key == f.key && e.wireKey == f.wireKey && e.directions == f.directions
    && e.decodeKind == f.decodeKind && e.decodeSemantic == f.decodeSemantic && e.decodeScale == f.decodeScale
    && e.packKey == Present(f.packKey, b.packKey) && e.semantic == Present(f.semantic, b.semantic)
    && e.provenance == Present(f.provenance, b.provenance) && e.status == Present(f.status, b.status)
    && e.source == b.source && e.vendor == b.vendor && e.pen == b.pen && e.attribute == b.attribute
    && e.number == b.number && e.oid == b.oid && e.wireType == b.wireType
    && e.family == b.family && e.functionality == b.functionality
  }

  /** The found entry goes one of these ways. */
  ghost predicate Goes(f: Entry, targets: set<string>) {
    exists d <- f.directions :: Lower(Trim(d)) in targets
  }

  ghost predicate HasWireData(b: Entry, f: Entry) {
    b.pen != 0 && b.attribute != "" && f.wireKey != "" && b.wireType != ""
  }

  ghost predicate HasClass(b: Entry, f: Entry) {
    Present(f.packKey, b.packKey) != "" && Present(f.semantic, b.semantic) != "" && f.directions != []
  }

  ghost predicate CanReply(ctx: Context, b: Entry, f: Entry) {
    Proven(ctx.evidence, f.wireKey) || First(Present(f.semantic, b.semantic)) in RENDERED
  }

  ghost predicate IsKnown(ctx: Context, semantic: string) {
    semantic != "" && semantic in ctx.semanticState && ctx.semanticState[semantic] != ""
  }

  /** Some registry entry with a decoder has the wire key of the found one. */
  ghost predicate DecodedAtRunTime(ctx: Context, f: Entry) {
    exists e <- ctx.entries :: Eligible(e) && WireKey(e.pen, e.number) == f.wireKey
  }

  ghost predicate Requires(d: Dimension, key: DimensionKey, passes: bool) {
    d.key == key && d.required && d.state == if passes then Passed else Blocked
  }

  ghost predicate RequiresIf(d: Dimension, key: DimensionKey, applies: bool, passes: bool) {
    if applies then Requires(d, key, passes) else d == Dimension(key, NotApplicable, false)
  }

  ghost predicate IsEnforced(semantic: string) {
    semantic in ENFORCED
  }

  /** The dimensions that depend on the row and the found entry. */
  ghost predicate SaysVarying(ctx: Context, b: Entry, f: Entry, dims: seq<Dimension>)
    requires |dims| == 10
  {
    var primary := First(Present(f.semantic, b.semantic));
    && Requires(dims[0], DictionaryKey, HasWireData(b, f) && HasClass(b, f))
    && RequiresIf(dims[2], PacketKey, Goes(f, {"inbound", "accounting"}),
                  DecodedAtRunTime(ctx, f) || ctx.grouped(f) || b.wireType != "")
    && RequiresIf(dims[3], ReplyKey, Goes(f, {"outbound_reply"}), CanReply(ctx, b, f))
    && Requires(dims[4], PolicyKey, IsKnown(ctx, primary))
    && Requires(dims[6], EnforcementKey, IsEnforced(primary))
  }

  /** The others always pass, and external certification is never claimed. */
  ghost predicate SaysFixed(dims: seq<Dimension>)
    requires |dims| == 10
  {
    && Requires(dims[1], RegistryKey, true) && Requires(dims[5], StorageKey, true)
    && Requires(dims[7], APIUIKey, true) && Requires(dims[8], ObservabilityKey, true)
    && dims[9] == Dimension(ExternalKey, ExternalRequired, false)
  }

  /** The ten dimensions of a record, read off the row and the found entry. */
  ghost predicate SaysDimensions(ctx: Context, b: Entry, f: Entry, dims: seq<Dimension>) {
    |dims| == 10 && SaysVarying(ctx, b, f, dims) && SaysFixed(dims)
  }

  /** What certification of a baseline row comes down to, given the entry found for it: wire data, a
      classification, a known and enforced primary semantic, and a renderer when the found entry is sent
      in replies. Packet processing never decides it. */
  ghost predicate Deserves(ctx: Context, b: Entry, f: Entry) {
    var primary := First(Present(f.semantic, b.semantic));
    && HasWireData(b, f) && HasClass(b, f)
    && IsKnown(ctx, primary) && IsEnforced(primary)
    && (Goes(f, {"outbound_reply"}) ==> CanReply(ctx, b, f))
  }

  lemma {:induction false} MergeSays(b: Entry, f: Entry)
    ensures SaysEntry(b, f, MergeEntry(b, f))
  {
  }

  /** The record of a baseline row says of the row and of the entry found for it what it should. */
  lemma {:induction false} RecordSays(ctx: Context, b: Entry)
    requires BuiltFrom(ctx.names, ctx.rows, ctx.entries) && b in Baseline(ctx.rows)
    ensures FoundRow(ctx, b).Some?
    ensures var f, r := FoundRow(ctx, b).value, RecordOf(ctx)(b);
            && SaysEntry(b, f, r.entry) && r.primary == First(Present(f.semantic, b.semantic))
            && SaysDimensions(ctx, b, f, r.dimensions)
  {
    BaselineIsFound(ctx, b);
    var f := FoundRow(ctx, b).value;
    MergeSays(b, f);
    RuntimeWiresExactly(ctx.order, ctx.entries, f.wireKey);
    DimensionsSay(ctx, b, f, MergeEntry(b, f), f.wireKey in RuntimeWires(Table(ctx.order, ctx.entries)));
    RecordIsOf(ctx, b, f);
  }

  lemma {:induction false} RecordIsOf(ctx: Context, b: Entry, f: Entry)
    requires FoundRow(ctx, b) == Some(f)
    ensures var e, wires := MergeEntry(b, f), RuntimeWires(Table(ctx.order, ctx.entries));
            RecordOf(ctx)(b) == RecordFrom(e, DimensionsOf(e, true, f.wireKey in wires, ctx.grouped(f),
                                                           Proven(ctx.evidence, f.wireKey), ctx.semanticState))
  {
  }

  lemma {:induction false} TenDimensionsOf(e: Entry, runtimeDecoder: bool, grouped: bool, proven: bool,
                                           semanticState: map<string, string>)
    ensures var dims := DimensionsOf(e, true, runtimeDecoder, grouped, proven, semanticState);
            && |dims| == 10 && dims[0] == DictionaryDimension(e) && dims[1] == RegistryDimension(e, true)
            && dims[2] == PacketDimension(e, runtimeDecoder, grouped) && dims[3] == ReplyDimension(e, proven)
            && dims[4] == PolicyDimension(e, semanticState) && dims[5] == Dimension(StorageKey, Passed, true)
            && dims[6] == EnforcementDimension(e) && dims[7] == Dimension(APIUIKey, Passed, true)
            && dims[8] == Dimension(ObservabilityKey, Passed, true)
            && dims[9] == Dimension(ExternalKey, ExternalRequired, false)
  {
  }

  lemma {:induction false} DimensionsSay(ctx: Context, b: Entry, f: Entry, e: Entry, runtimeDecoder: bool)
    requires SaysEntry(b, f, e) && e.status == PARTIAL && (runtimeDecoder <==> DecodedAtRunTime(ctx, f))
    ensures SaysDimensions(ctx, b, f, DimensionsOf(e, true, runtimeDecoder, ctx.grouped(f),
                                                   Proven(ctx.evidence, f.wireKey), ctx.semanticState))
  {
    TenDimensionsOf(e, runtimeDecoder, ctx.grouped(f), Proven(ctx.evidence, f.wireKey), ctx.semanticState);
    PartialIsRegistered(e);
    DictionarySays(b, f, e);
    PacketSays(ctx, b, f, e, runtimeDecoder);
    ReplySays(ctx, b, f, e);
    SemanticSays(ctx, b, f, e);
    AllSay(ctx, b, f, DimensionsOf(e, true, runtimeDecoder, ctx.grouped(f), Proven(ctx.evidence, f.wireKey),
                                   ctx.semanticState));
  }

  lemma {:induction false} AllSay(ctx: Context, b: Entry, f: Entry, dims: seq<Dimension>)
    requires |dims| == 10 && SaysVarying(ctx, b, f, dims) && SaysFixed(dims)
    ensures SaysDimensions(ctx, b, f, dims)
  {
  }

  lemma {:induction false} SemanticSays(ctx: Context, b: Entry, f: Entry, e: Entry)
    requires SaysEntry(b, f, e)
    ensures var primary := First(Present(f.semantic, b.semantic));
            && Requires(PolicyDimension(e, ctx.semanticState), PolicyKey, IsKnown(ctx, primary))
            && Requires(EnforcementDimension(e), EnforcementKey, IsEnforced(primary))
  {
  }

  lemma {:induction false} PartialIsRegistered(e: Entry)
    requires e.status == PARTIAL
    ensures Requires(RegistryDimension(e, true), RegistryKey, true)
  {
    assert PARTIAL[0] != MISSING[0];
  }

  lemma {:induction false} DictionarySays(b: Entry, f: Entry, e: Entry)
    requires SaysEntry(b, f, e) && e.status == PARTIAL
    ensures Requires(DictionaryDimension(e), DictionaryKey, HasWireData(b, f) && HasClass(b, f))
  {
  }

  lemma {:induction false} PacketSays(ctx: Context, b: Entry, f: Entry, e: Entry, runtimeDecoder: bool)
    requires SaysEntry(b, f, e) && (runtimeDecoder <==> DecodedAtRunTime(ctx, f))
    ensures RequiresIf(PacketDimension(e, runtimeDecoder, ctx.grouped(f)), PacketKey,
                       Goes(f, {"inbound", "accounting"}),
                       DecodedAtRunTime(ctx, f) || ctx.grouped(f) || b.wireType != "")
  {
    GoesDirected(f, e, {"inbound", "accounting"});
  }

  lemma {:induction false} ReplySays(ctx: Context, b: Entry, f: Entry, e: Entry)
    requires SaysEntry(b, f, e)
    ensures RequiresIf(ReplyDimension(e, Proven(ctx.evidence, f.wireKey)), ReplyKey, Goes(f, {"outbound_reply"}),
                       CanReply(ctx, b, f))
  {
    GoesDirected(f, e, {"outbound_reply"});
  }

  lemma {:induction false} GoesDirected(f: Entry, e: Entry, targets: set<string>)
    requires e.directions == f.directions
    ensures Directed(e, targets) <==> Goes(f, targets)
  {
  }

  lemma {:induction false} CertifiedExactly(ctx: Context, b: Entry)
    requires BuiltFrom(ctx.names, ctx.rows, ctx.entries) && b in Baseline(ctx.rows)
    ensures FoundRow(ctx, b).Some? && (RecordOf(ctx)(b).certified <==> Deserves(ctx, b, FoundRow(ctx, b).value))
  {
    RecordSays(ctx, b);
    CertifiedIsAcceptable(ctx, b);
    SaidDecides(ctx, b, FoundRow(ctx, b).value, RecordOf(ctx)(b).dimensions);
  }

  lemma {:induction false} SaidDecides(ctx: Context, b: Entry, f: Entry, dims: seq<Dimension>)
    requires SaysDimensions(ctx, b, f, dims)
    ensures (forall d <- dims :: d.required ==> d.state == Passed) <==> Deserves(ctx, b, f)
  {
    TenDimensions(dims);
    assert HasWireData(b, f) ==> b.wireType != "";
  }

  lemma {:induction false} TenDimensions(dims: seq<Dimension>)
    requires |dims| == 10
    ensures (forall d <- dims :: d.required ==> d.state == Passed) <==>
              forall i :: 0 <= i < 10 ==> dims[i].required ==> dims[i].state == Passed
  {
    if forall d <- dims :: d.required ==> d.state == Passed {
      assert forall i :: 0 <= i < 10 ==> dims[i] in dims;
    }
  }

  ghost function DeservesIn(ctx: Context): Entry -> bool {
    (b: Entry) => FoundRow(ctx, b).Some? && Deserves(ctx, b, FoundRow(ctx, b).value)
  }

  lemma {:induction false} NoOptionalPackets(rs: seq<Record>)
    requires forall i :: 0 <= i < |rs| ==> Settled(rs[i])
    ensures Count(PassedOptionalPacket, AllDimensions(rs)) == 0
  {
    if rs != [] {
      var init, last := rs[..|rs| - 1], rs[|rs| - 1];
      NoOptionalPackets(init);
      CountZero(PassedOptionalPacket, last.dimensions);
      CountConcat(PassedOptionalPacket, AllDimensions(init), last.dimensions);
    }
  }

  lemma {:induction false} SettledSummary(s: Summary, rs: seq<Record>)
    requires Summarizes(s, rs) && forall i :: 0 <= i < |rs| ==> Settled(rs[i])
    ensures s.wiring.genericCodecs == 0 && s.certified + s.blocked == |rs| == s.externalRequired
    ensures s.certified == |rs| <==> forall i :: 0 <= i < |rs| ==> AcceptableRecord(rs[i])
  {
    NoOptionalPackets(rs);
    CountAll(NeedsExternal, rs);
    CountAll(IsCertified, rs);
    SettledFlags(rs);
  }

  lemma {:induction false} SettledFlags(rs: seq<Record>)
    requires forall i :: 0 <= i < |rs| ==> Settled(rs[i])
    ensures forall i :: 0 <= i < |rs| ==> (AcceptableRecord(rs[i]) <==> IsCertified(rs[i])) && NeedsExternal(rs[i])
  {
  }

  lemma {:induction false} ReportSettled(ctx: Context, report: Report)
    requires IsJudged(ctx, report)
    ensures |report.records| == |Baseline(ctx.rows)| && forall i :: 0 <= i < |report.records| ==>
            Settled(report.records[i])
  {
    var baseline := Baseline(ctx.rows);
    StableSortPermutes(RecordNotAfter, Mapped(RecordOf(ctx), baseline));
    forall b | b in baseline ensures Settled(RecordOf(ctx)(b)) {
      CertifiedIsAcceptable(ctx, b);
    }
    ImagesAll(Settled, RecordOf(ctx), (b: Entry) => true, baseline, report.records);
  }

  /** The summary conserves the records, and its generic codec counter is always zero: a packet
      dimension that passed is required. */
  lemma {:induction false} SummaryConserves(ctx: Context, report: Report)
    requires IsJudged(ctx, report)
    ensures report.summary.wiring.genericCodecs == 0
    ensures report.summary.certified + report.summary.blocked == |report.records| == report.summary.externalRequired
            == report.baseline
  {
    ReportSettled(ctx, report);
    SettledSummary(report.summary, report.records);
  }

  lemma {:induction false} RowDecides(ctx: Context, b: Entry)
    requires BuiltFrom(ctx.names, ctx.rows, ctx.entries) && b in Baseline(ctx.rows)
    ensures Decides(RecordOf(ctx), DeservesIn(ctx), b)
  {
    CertifiedIsAcceptable(ctx, b);
    CertifiedExactly(ctx, b);
  }

  lemma {:induction false} IDsPermute(built: seq<Record>, rs: seq<Record>)
    requires multiset(built) == multiset(rs)
    ensures UniqueKeys(IDOf, rs) <==> UniqueKeys(IDOf, built)
  {
    if UniqueKeys(IDOf, built) {
      UniqueKeysPermute(IDOf, built, rs);
    }
    if UniqueKeys(IDOf, rs) {
      UniqueKeysPermute(IDOf, rs, built);
    }
  }

  lemma {:induction false} HeaderExactly(report: Report)
    requires Summarizes(report.summary, report.records) && forall i :: 0 <= i < |report.records| ==>
             Settled(report.records[i])
    requires report.version == SCHEMA_VERSION && report.profileID == ReleaseKeys.PROFILE_ID
    requires report.baseline == |report.records| && report.summary.fingerprint != ""
    ensures Acceptable(report) <==>
              && !Blank(report.sourceSHA256) && report.baseline == BASELINE_COUNT
              && (forall i :: 0 <= i < |report.records| ==> AcceptableRecord(report.records[i]))
              && UniqueKeys(IDOf, report.records)
  {
    SettledSummary(report.summary, report.records);
    ReleaseKeys.ProfileIsText();
  }

  ghost predicate Decide(f: Entry -> Record, good: Entry -> bool, baseline: seq<Entry>) {
    forall b <- baseline :: Decides(f, good, b)
  }

  ghost predicate Decides(f: Entry -> Record, good: Entry -> bool, b: Entry) {
    AcceptableRecord(f(b)) <==> good(b)
  }

  /** Records that come from `f` and are acceptable exactly when their row is good. */
  lemma {:induction false} AcceptableFrom(f: Entry -> Record, good: Entry -> bool, baseline: seq<Entry>,
                                          rs: seq<Record>)
    requires rs == StableSort(RecordNotAfter, Mapped(f, baseline))
    requires Decide(f, good, baseline)
    ensures All(AcceptableRecord, rs) && UniqueKeys(IDOf, rs)
       <==> All(good, baseline) && UniqueKeys(IDOf, Mapped(f, baseline))
  {
    StableSortPermutes(RecordNotAfter, Mapped(f, baseline));
    assert forall b <- baseline :: Decides(f, good, b);
    ImagesAll(AcceptableRecord, f, good, baseline, rs);
    IDsPermute(Mapped(f, baseline), rs);
  }

  lemma {:induction false} ReportHeader(ctx: Context, report: Report)
    requires IsJudged(ctx, report)
    ensures Acceptable(report) <==>
              && !Blank(ctx.sha) && |Baseline(ctx.rows)| == BASELINE_COUNT
              && All(AcceptableRecord, report.records)
              && UniqueKeys(IDOf, report.records)
  {
    ReportSettled(ctx, report);
    assert report.summary.fingerprint[0] == 's';
    HeaderExactly(report);
  }

  lemma {:induction false} RowsDecide(ctx: Context, bs: seq<Entry>)
    requires BuiltFrom(ctx.names, ctx.rows, ctx.entries) && forall b <- bs :: b in Baseline(ctx.rows)
    ensures Decide(RecordOf(ctx), DeservesIn(ctx), bs)
  {
    if bs != [] {
      RowDecides(ctx, bs[0]);
      RowsDecide(ctx, bs[1..]);
    }
  }

  /** The validator accepts a built report exactly when the source hash is there, the baseline has its
      fixed size, every baseline row deserves certification and the record IDs differ. */
  lemma {:induction false} AcceptedExactly(ctx: Context, report: Report)
    requires IsJudged(ctx, report) && BuiltFrom(ctx.names, ctx.rows, ctx.entries)
    ensures Acceptable(report) <==>
              && !Blank(ctx.sha) && |Baseline(ctx.rows)| == BASELINE_COUNT
              && All(DeservesIn(ctx), Baseline(ctx.rows))
              && UniqueKeys(IDOf, Mapped(RecordOf(ctx), Baseline(ctx.rows)))
  {
    ReportHeader(ctx, report);
    RowsDecide(ctx, Baseline(ctx.rows));
    AcceptableFrom(RecordOf(ctx), DeservesIn(ctx), Baseline(ctx.rows), report.records);
  }

  /** The entry a baseline row is certified by. */
  ghost function CertifiedBy(ctx: Context): Entry -> Entry {
    (b: Entry) => Certifiable(b, FoundRow(ctx, b))
  }

  ghost predicate Identifies(f: Entry -> Record, via: Entry -> Entry, b: Entry) {
    IDOf(f(b)) == RecordID(via(b))
  }

  lemma {:induction false} RowIdentified(ctx: Context, b: Entry)
    ensures Identifies(RecordOf(ctx), CertifiedBy(ctx), b)
  {
  }

  lemma {:induction false} IDsDifferExactly(f: Entry -> Record, via: Entry -> Entry, bs: seq<Entry>)
    requires forall b <- bs :: Identifies(f, via, b) && ':' !in via(b).packKey
    ensures UniqueKeys(IDOf, Mapped(f, bs)) <==> UniqueKeys(IDFields, Mapped(via, bs))
  {
    forall i, k | 0 <= i < k < |bs|
      ensures IDOf(Mapped(f, bs)[i]) == IDOf(Mapped(f, bs)[k])
         <==> IDFields(Mapped(via, bs)[i]) == IDFields(Mapped(via, bs)[k])
    {
      assert bs[i] in bs && bs[k] in bs;
      SameIDExactly(via(bs[i]), via(bs[k]));
    }
  }

  /** What tells the record of a row apart: pack key, number and attribute, ignoring case and spaces for
      dashes. */
  ghost function RowFields(ctx: Context): Entry -> (string, nat, string) {
    (b: Entry) => (SpacesToDashes(Lower(RowPack(ctx, b))), b.pen, SpacesToDashes(Lower(b.attribute)))
  }

  /** The pack key of the entry found for a row when it is present, that of the row otherwise. */
  ghost function RowPack(ctx: Context, b: Entry): string {
    match FoundRow(ctx, b) case Some(f) => Present(f.packKey, b.packKey) case None => b.packKey
  }

  lemma {:induction false} CertifiedByFields(ctx: Context, b: Entry)
    ensures CertifiedBy(ctx)(b).packKey == RowPack(ctx, b)
    ensures IDFields(CertifiedBy(ctx)(b)) == RowFields(ctx)(b)
  {
  }

  lemma {:induction false} SameFields<K>(via: Entry -> Entry, f: Entry -> K, g: Entry -> K, bs: seq<Entry>)
    requires forall b <- bs :: f(via(b)) == g(b)
    ensures UniqueKeys(f, Mapped(via, bs)) <==> UniqueKeys(g, bs)
  {
    forall i | 0 <= i < |bs| ensures f(Mapped(via, bs)[i]) == g(bs[i]) {
      assert bs[i] in bs;
    }
  }

  /** So, when no pack key has a colon, the validator accepts a built report exactly when, besides, no two
      baseline rows agree in pack, number and attribute, ignoring case and spaces for dashes. */
  lemma {:induction false} AcceptedByFields(ctx: Context, report: Report)
    requires IsJudged(ctx, report) && BuiltFrom(ctx.names, ctx.rows, ctx.entries)
    requires forall b <- Baseline(ctx.rows) :: ':' !in RowPack(ctx, b)
    ensures Acceptable(report) <==>
              && !Blank(ctx.sha) && |Baseline(ctx.rows)| == BASELINE_COUNT
              && All(DeservesIn(ctx), Baseline(ctx.rows)) && UniqueKeys(RowFields(ctx), Baseline(ctx.rows))
  {
    AcceptedExactly(ctx, report);
    FieldsDecide(ctx, Baseline(ctx.rows));
  }

  lemma {:induction false} FieldsDecide(ctx: Context, bs: seq<Entry>)
    requires forall b <- bs :: ':' !in RowPack(ctx, b)
    ensures UniqueKeys(IDOf, Mapped(RecordOf(ctx), bs)) <==> UniqueKeys(RowFields(ctx), bs)
  {
    var f, source := RecordOf(ctx), CertifiedBy(ctx);
    forall b | b in bs ensures Identifies(f, source, b) && ':' !in source(b).packKey {
      RowIdentified(ctx, b);
      CertifiedByFields(ctx, b);
    }
    IDsDifferExactly(f, source, bs);
    forall b | b in bs ensures IDFields(source(b)) == RowFields(ctx)(b) {
      CertifiedByFields(ctx, b);
    }
    SameFields(source, IDFields, RowFields(ctx), bs);
  }
}

/** Compatibility evidence (configs/compatibility_evidence.go): one record per pack mapping with six
    dimensions, the states derived from them, summary and validator. */
module Evidence {
  import opened Text
  import opened Sequences
  import opened Wrappers
  import opened Dictionary
  import opened RegistryModel
  import opened Registry
  import opened RuntimeMappings
  import opened Packs
  import opened Dimensions
  import ReleaseKeys
  import C = Coverage

  const SCHEMA_VERSION := 1

  datatype Software = Ready | Pending | Stopped | Metadata

  datatype Claim = SoftwareReady | SoftwareReadyExternalNeeded | ClaimPlanned | ClaimBlocked | ClaimMetadata

  datatype Record = Record(
    id: string, packKey: string, active: bool, vendorName: string, vendorID: int, attribute: string, semantic: string,
    direction: string, valueType: string, compatibility: string, registryKey: string, wireKey: string,
    dictionaryStatus: string,
    dimensions: seq<Dimension>, blockers: seq<DimensionKey>, software: Software, certification: CertificationState,
    claim: Claim, ready: bool, readyForExternal: bool, externalRequired: bool)

  datatype Summary = Summary(
    total: nat, ready: nat, planned: nat, blocked: nat, metadata: nat, externalRequired: nat, certified: nat,
    dictionaryPassed: nat, registryPassed: nat, decodePassed: nat, replyPassed: nat, policyPassed: nat,
    externalPassed: nat)

  datatype Report = Report(version: int, profileID: string, sourceSHA256: string, summary: Summary,
                           records: seq<Record>)

  /** What the report is built from, besides the packs. */
  datatype Context = Context(names: Names, normalizePack: string -> string, vendors: seq<Vendor>, active: set<string>,
                             entries: seq<Entry>, order: map<string, nat>, sha: string)

  /** One pack attribute mapping together with its pack. */
  datatype Job = Job(pack: Pack, mapping: Mapping)

  type MappingKey = (string, string, string, string)

  function Folded(s: string): string {
    Lower(Trim(s))
  }

  predicate Owned(packKey: string) {
    packKey == STANDARD || packKey == AEGISNAS
  }

  // ----- dimensions

  function DictionaryDimension(packKey: string, coverage: C.AttributeCoverage, direction: string): Dimension {
    if direction == C.CONTROLLER then Dimension(DictionaryKey, NotApplicable, false)
    else if packKey == STANDARD || coverage.found then Dimension(DictionaryKey, Passed, true)
    else if coverage.attribute == "" then Dimension(DictionaryKey, MetadataOnly, true)
    else Dimension(DictionaryKey, Blocked, true)
  }

  function RegistryDimension(packKey: string, direction: string, entry: Option<Entry>): Dimension {
    if direction == C.CONTROLLER || Owned(packKey) then Dimension(RegistryKey, NotApplicable, false)
    else if entry.None? || entry.value.status == MISSING then Dimension(RegistryKey, Blocked, true)
    else Dimension(RegistryKey, Passed, true)
  }

  function DecodeDimension(normalizePack: string -> string, packKey: string, m: Mapping, entry: Option<Entry>,
                           runtime: set<(string, nat, nat, string)>): Dimension {
    var direction := Folded(m.direction);
    if direction != "inbound" && direction != "accounting" then Dimension(DecodeKey, NotApplicable, false)
    else if Owned(packKey) then Dimension(DecodeKey, Passed, true)
    else if entry.None? || entry.value.number == 0 then Dimension(DecodeKey, Blocked, true)
    else if EvidenceKey(normalizePack, packKey, entry.value.pen, entry.value.number, m.semantic) in runtime
      then Dimension(DecodeKey, Passed, true)
    else Dimension(DecodeKey, Planned, true)
  }

  function ReplyDimension(m: Mapping): Dimension {
    if Folded(m.direction) != "outbound_reply" then Dimension(ReplyKey, NotApplicable, false)
    else if Folded(m.state) == C.IMPLEMENTED then Dimension(ReplyKey, Passed, true)
    else Dimension(ReplyKey, Planned, true)
  }

  function PolicyDimension(m: Mapping): Dimension {
    if Blank(m.semantic) then Dimension(PolicyKey, Blocked, true)
    else if Folded(m.state) == C.IMPLEMENTED then Dimension(PolicyKey, Passed, true)
    else Dimension(PolicyKey, Planned, true)
  }

  function DeviceDimension(packKey: string, vendorName: string, compatibility: string): Dimension {
    if compatibility != C.IMPLEMENTED then Dimension(ExternalKey, Planned, false)
    else if Owned(packKey) || Blank(vendorName) then Dimension(ExternalKey, NotApplicable, false)
    else Dimension(ExternalKey, ExternalRequired, false)
  }

  function DimensionsOf(normalizePack: string -> string, j: Job, coverage: C.AttributeCoverage, entry: Option<Entry>,
                        runtime: set<(string, nat, nat, string)>): seq<Dimension> {
    var packKey := normalizePack(j.pack.key);
    var direction := Folded(j.mapping.direction);
    [DictionaryDimension(packKey, coverage, direction),
     RegistryDimension(packKey, direction, entry),
     DecodeDimension(normalizePack, packKey, j.mapping, entry, runtime),
     ReplyDimension(j.mapping),
     PolicyDimension(j.mapping),
     DeviceDimension(packKey, C.PackVendor(j.pack), Folded(j.mapping.state))]
  }

  // ----- states

  /** `mappingSoftwareState`. */
  function SoftwareOf(compatibility: string, dims: seq<Dimension>): Software {
    var state := Folded(compatibility);
    if state == "" || state == MISSING then Metadata
    else if state != C.IMPLEMENTED then Pending
    else if exists d <- dims :: Blocks(d) then Stopped
    else if exists d <- dims :: Delays(d) then Pending
    else Ready
  }

  /** `mappingCertificationState`: decided by the first certification dimension. */
  function CertificationOf(dims: seq<Dimension>): CertificationState {
    if dims == [] then NotRequired
    else if dims[0].key != ExternalKey then CertificationOf(dims[1..])
    else match dims[0].state
      case ExternalRequired => Required
      case Passed => Claimed
      case Certified => Claimed
      case _ => NotRequired
  }

  /** `mappingClaimState`. */
  function ClaimOf(software: Software, certification: CertificationState): Claim {
    match software
    case Ready => if certification == Required then SoftwareReadyExternalNeeded else SoftwareReady
    case Stopped => ClaimBlocked
    case Pending => ClaimPlanned
    case Metadata => ClaimMetadata
  }

  // ----- identity

  function CoverageKey(normalizePack: string -> string, packKey: string, semantic: string, attribute: string,
                       direction: string): MappingKey {
    (normalizePack(packKey), Folded(semantic), Folded(attribute), Folded(direction))
  }

  function JobKey(normalizePack: string -> string, j: Job): MappingKey {
    CoverageKey(normalizePack, normalizePack(j.pack.key), j.mapping.semantic, j.mapping.attribute, j.mapping.direction)
  }

  /** `evidenceRecordID` on the parts of a key. */
  function RecordID(key: MappingKey): string {
    SpacesToDashes(Join(["attribute", key.0, key.1, key.2, key.3], ':'))
  }

  function JobID(normalizePack: string -> string, j: Job): string {
    RecordID(JobKey(normalizePack, j))
  }

  lemma {:induction false} RecordIDIsText(key: MappingKey)
    ensures !Blank(RecordID(key))
  {
    BlankIsAllSpace(RecordID(key));
    assert RecordID(key)[0] == 'a';
  }

  // ----- one record

  /** The record of one mapping from its dimensions. */
  function RecordFrom(ctx: Context, j: Job, entry: Option<Entry>, dims: seq<Dimension>): Record {
    var packKey := ctx.normalizePack(j.pack.key);
    var state := Folded(j.mapping.state);
    var software := SoftwareOf(state, dims);
    var certification := CertificationOf(dims);
    Record(RecordID(CoverageKey(ctx.normalizePack, packKey, j.mapping.semantic, j.mapping.attribute,
                                Folded(j.mapping.direction))),
           packKey, packKey in ctx.active, C.PackVendor(j.pack), j.pack.vendorID, Trim(j.mapping.attribute),
           Trim(j.mapping.semantic), Folded(j.mapping.direction), Trim(j.mapping.valueType), state,
           if entry.Some? then entry.value.key else "",
           if entry.Some? then entry.value.wireKey else "",
           if entry.Some? then entry.value.status else "",
           dims, Blockers(dims), software, certification, ClaimOf(software, certification),
           software == Ready, software == Ready && certification == Required, certification == Required)
  }

  const NO_COVERAGE := C.AttributeCoverage("", "", "", false)

  function Lookup(table: map<MappingKey, C.AttributeCoverage>, key: MappingKey): C.AttributeCoverage {
    if key in table then table[key] else NO_COVERAGE
  }

  ghost function FoundEntry(ctx: Context, j: Job): Option<Entry> {
    NaivePack(ctx.names, ctx.entries, j.pack, j.mapping.attribute)
  }

  /** `buildMappingEvidenceRecord`. */
  function BuildRecord(ctx: Context, table: map<MappingKey, C.AttributeCoverage>,
                       runtime: set<(string, nat, nat, string)>, j: Job, entry: Option<Entry>): Record {
    RecordFrom(ctx, j, entry, DimensionsOf(ctx.normalizePack, j, Lookup(table, JobKey(ctx.normalizePack, j)), entry,
                                           runtime))
  }

  function Builder(ctx: Context, table: map<MappingKey, C.AttributeCoverage>,
                   runtime: set<(string, nat, nat, string)>): (Job, Option<Entry>) -> Record {
    (j: Job, entry: Option<Entry>) => BuildRecord(ctx, table, runtime, j, entry)
  }

  /** Builds from a mapping and the entry that a linear search finds for it. */
  ghost function Located<R>(ctx: Context, build: (Job, Option<Entry>) -> R): Job -> R {
    (j: Job) => build(j, FoundEntry(ctx, j))
  }

  // ----- the coverage table

  /** Successive assignments to a map: the last one for a key stays. */
  function Assign<K, V>(pairs: seq<(K, V)>): map<K, V> {
    if pairs == [] then map[] else Assign(pairs[..|pairs| - 1])[pairs[|pairs| - 1].0 := pairs[|pairs| - 1].1]
  }

  lemma {:induction false} AssignKeeps<K, V>(pairs: seq<(K, V)>, i: nat)
    requires i < |pairs| && forall k :: i < k < |pairs| ==> pairs[k].0 != pairs[i].0
    ensures pairs[i].0 in Assign(pairs) && Assign(pairs)[pairs[i].0] == pairs[i].1
    decreases |pairs|
  {
    var n := |pairs| - 1;
    if i < n {
      AssignKeeps(pairs[..n], i);
      assert pairs[n].0 != pairs[i].0;
    }
  }

  function PackJobs(pack: Pack): seq<Job> {
    Mapped((m: Mapping) => Job(pack, m), pack.attributes)
  }

  /** All mappings of all packs, in order. */
  function Jobs(packs: seq<Pack>): seq<Job> {
    if packs == [] then [] else Jobs(packs[..|packs| - 1]) + PackJobs(packs[|packs| - 1])
  }

  function CoveragePair(normalizePack: string -> string, packKey: string): C.AttributeCoverage -> (MappingKey,
      C.AttributeCoverage) {
    (a: C.AttributeCoverage) => (CoverageKey(normalizePack, packKey, a.semantic, a.attribute, a.direction), a)
  }

  function RowPairs(normalizePack: string -> string, rows: seq<C.Row>): seq<(MappingKey, C.AttributeCoverage)> {
    if rows == [] then []
    else RowPairs(normalizePack, rows[..|rows| - 1]) + Mapped(CoveragePair(normalizePack, rows[|rows| - 1].packKey),
                                                              rows[|rows| - 1].attributes)
  }

  lemma {:induction false} AssignSnoc<K, V>(pairs: seq<(K, V)>, pair: (K, V))
    ensures Assign(pairs + [pair]) == Assign(pairs)[pair.0 := pair.1]
  {
    assert (pairs + [pair])[..|pairs|] == pairs;
  }

  lemma {:induction false} FiledNext<K, V>(pair: V -> (K, V), attributes: seq<V>, before: seq<(K, V)>, k: nat)
    requires k < |attributes|
    ensures var filed := pair(attributes[k]);
            Assign(before + Mapped(pair, attributes[..k + 1]))
              == Assign(before + Mapped(pair, attributes[..k]))[filed.0 := filed.1]
  {
    var filed := pair(attributes[k]);
    assert attributes[..k + 1] == attributes[..k] + [attributes[k]];
    MappedConcat(pair, attributes[..k], [attributes[k]]);
    assert before + Mapped(pair, attributes[..k + 1]) == (before + Mapped(pair, attributes[..k])) + [filed];
    AssignSnoc(before + Mapped(pair, attributes[..k]), filed);
  }

  /** The inner loop of the coverage table: the attributes of one row. */
  method FileRow<K, V>(pair: V -> (K, V), attributes: seq<V>, table: map<K, V>, ghost before: seq<(K, V)>)
    returns (after: map<K, V>)
    requires table == Assign(before)
    ensures after == Assign(before + Mapped(pair, attributes))
  {
    after := table;
    assert before + Mapped(pair, attributes[..0]) == before;
    for k := 0 to |attributes|
      invariant after == Assign(before + Mapped(pair, attributes[..k]))
    {
      var filed := pair(attributes[k]);
      FiledNext(pair, attributes, before, k);
      after := after[filed.0 := filed.1];
    }
    assert attributes[..|attributes|] == attributes;
  }

  /** `vendorCoverageByMapping`. */
  method CoverageByMapping(normalizePack: string -> string, rows: seq<C.Row>)
    returns (table: map<MappingKey, C.AttributeCoverage>)
    ensures table == Assign(RowPairs(normalizePack, rows))
  {
    table := map[];
    for i := 0 to |rows|
      invariant table == Assign(RowPairs(normalizePack, rows[..i]))
    {
      assert rows[..i + 1][..i] == rows[..i];
      table := FileRow(CoveragePair(normalizePack, rows[i].packKey), rows[i].attributes, table,
                       RowPairs(normalizePack, rows[..i]));
    }
    assert rows[..|rows|] == rows;
  }

  ghost function JobPair(ctx: Context): Job -> (MappingKey, C.AttributeCoverage) {
    (j: Job) => (JobKey(ctx.normalizePack, j), C.CoverageOf(ctx.names, ctx.normalizePack, ctx.vendors, j.pack,
                                                            j.mapping))
  }

  lemma {:induction false} PackPairs(ctx: Context, pack: Pack, row: C.Row)
    requires C.RowFor(ctx.names, ctx.normalizePack, ctx.vendors, ctx.active, pack, row)
    ensures Mapped(CoveragePair(ctx.normalizePack, row.packKey), row.attributes) == Mapped(JobPair(ctx), PackJobs(pack))
  {
    var pair := CoveragePair(ctx.normalizePack, row.packKey);
    forall i | 0 <= i < |row.attributes| ensures pair(row.attributes[i]) == JobPair(ctx)(PackJobs(pack)[i]) {
      var m := pack.attributes[i];
      assert row.attributes[i] == C.CoverageOf(ctx.names, ctx.normalizePack, ctx.vendors, pack, m);
      TrimTrim(m.semantic);
      TrimTrim(m.attribute);
      TrimTrim(m.direction);
    }
  }

  /** The rows of the coverage report hold one pair per mapping, in order. */
  lemma {:induction false} RowPairsAreJobs(ctx: Context, packs: seq<Pack>, rows: seq<C.Row>)
    requires |packs| == |rows|
    requires forall i :: 0 <= i < |packs| ==> C.RowFor(ctx.names, ctx.normalizePack, ctx.vendors, ctx.active, packs[i],
                                                       rows[i])
    ensures RowPairs(ctx.normalizePack, rows) == Mapped(JobPair(ctx), Jobs(packs))
  {
    if packs != [] {
      var n := |packs| - 1;
      RowPairsAreJobs(ctx, packs[..n], rows[..n]);
      PackPairs(ctx, packs[n], rows[n]);
      MappedConcat(JobPair(ctx), Jobs(packs[..n]), PackJobs(packs[n]));
    }
  }

  // ----- the report

  predicate RecordNotAfter(a: Record, b: Record) {
    !Less(b.id, a.id)
  }

  function IDOf(r: Record): string {
    r.id
  }

  ghost function CoverageTable(ctx: Context, packs: seq<Pack>): map<MappingKey, C.AttributeCoverage> {
    Assign(Mapped(JobPair(ctx), Jobs(packs)))
  }

  ghost function Built(ctx: Context, packs: seq<Pack>): seq<Record> {
    Mapped(Located(ctx, Builder(ctx, CoverageTable(ctx, packs),
                                RuntimeEvidence(ctx.normalizePack, Table(ctx.order, ctx.entries)))), Jobs(packs))
  }

  predicate IsReady(r: Record) {
    r.software == Ready
  }

  predicate IsPending(r: Record) {
    r.software == Pending
  }

  predicate IsStopped(r: Record) {
    r.software == Stopped
  }

  predicate IsMetadata(r: Record) {
    r.software == Metadata
  }

  predicate NeedsExternal(r: Record) {
    r.certification == Required
  }

  predicate ClaimsCertified(r: Record) {
    r.certification == Claimed
  }

  function PassedAs(key: DimensionKey): Dimension -> bool {
    (d: Dimension) => d.state == Passed && d.key == key
  }

  function PassedIn(key: DimensionKey): Record -> nat {
    (r: Record) => Count(PassedAs(key), r.dimensions)
  }

  ghost predicate Tallied(s: Summary, rs: seq<Record>) {
    && s.ready == Count(IsReady, rs) && s.planned == Count(IsPending, rs)
    && s.blocked == Count(IsStopped, rs) && s.metadata == Count(IsMetadata, rs)
    && s.externalRequired == Count(NeedsExternal, rs) && s.certified == Count(ClaimsCertified, rs)
  }

  ghost predicate Passes(s: Summary, rs: seq<Record>) {
    && s.dictionaryPassed == Sum(PassedIn(DictionaryKey), rs) && s.registryPassed == Sum(PassedIn(RegistryKey), rs)
    && s.decodePassed == Sum(PassedIn(DecodeKey), rs) && s.replyPassed == Sum(PassedIn(ReplyKey), rs)
    && s.policyPassed == Sum(PassedIn(PolicyKey), rs) && s.externalPassed == Sum(PassedIn(ExternalKey), rs)
  }

  /** The two state switches of the summary loop. */
  function Tally(s: Summary, r: Record): Summary {
    var s1 := match r.software
      case Ready => s.(ready := s.ready + 1)
      case Pending => s.(planned := s.planned + 1)
      case Stopped => s.(blocked := s.blocked + 1)
      case Metadata => s.(metadata := s.metadata + 1);
    match r.certification
    case Required => s1.(externalRequired := s1.externalRequired + 1)
    case Claimed => s1.(certified := s1.certified + 1)
    case NotRequired => s1
  }

  /** The dimension switch of the summary loop. */
  function TallyDimension(s: Summary, d: Dimension): Summary {
    if d.state != Passed then s
    else match d.key
      case DictionaryKey => s.(dictionaryPassed := s.dictionaryPassed + 1)
      case RegistryKey => s.(registryPassed := s.registryPassed + 1)
      case DecodeKey => s.(decodePassed := s.decodePassed + 1)
      case ReplyKey => s.(replyPassed := s.replyPassed + 1)
      case PolicyKey => s.(policyPassed := s.policyPassed + 1)
      case ExternalKey => s.(externalPassed := s.externalPassed + 1)
      case _ => s
  }

  lemma {:induction false} TallyStep(s: Summary, rs: seq<Record>, r: Record)
    requires Tallied(s, rs)
    ensures Tallied(Tally(s, r), rs + [r])
  {
    CountSnoc(IsReady, rs, r);
    CountSnoc(IsPending, rs, r);
    CountSnoc(IsStopped, rs, r);
    CountSnoc(IsMetadata, rs, r);
    CountSnoc(NeedsExternal, rs, r);
    CountSnoc(ClaimsCertified, rs, r);
  }

  /** `s` counts the passed dimensions of `from` and then those of `dims`. */
  ghost predicate PassesMore(s: Summary, from: Summary, dims: seq<Dimension>) {
    && s.dictionaryPassed == from.dictionaryPassed + Count(PassedAs(DictionaryKey), dims)
    && s.registryPassed == from.registryPassed + Count(PassedAs(RegistryKey), dims)
    && s.decodePassed == from.decodePassed + Count(PassedAs(DecodeKey), dims)
    && s.replyPassed == from.replyPassed + Count(PassedAs(ReplyKey), dims)
    && s.policyPassed == from.policyPassed + Count(PassedAs(PolicyKey), dims)
    && s.externalPassed == from.externalPassed + Count(PassedAs(ExternalKey), dims)
  }

  predicate SameStates(s: Summary, t: Summary) {
    && s.total == t.total && s.ready == t.ready && s.planned == t.planned && s.blocked == t.blocked
    && s.metadata == t.metadata
    && s.externalRequired == t.externalRequired && s.certified == t.certified
  }

  lemma {:induction false} PassesMoreStep(s: Summary, from: Summary, dims: seq<Dimension>, d: Dimension)
    requires PassesMore(s, from, dims)
    ensures PassesMore(TallyDimension(s, d), from, dims + [d])
  {
    CountSnoc(PassedAs(DictionaryKey), dims, d);
    CountSnoc(PassedAs(RegistryKey), dims, d);
    CountSnoc(PassedAs(DecodeKey), dims, d);
    CountSnoc(PassedAs(ReplyKey), dims, d);
    CountSnoc(PassedAs(PolicyKey), dims, d);
    CountSnoc(PassedAs(ExternalKey), dims, d);
  }

  method TallyDimensions(from: Summary, dims: seq<Dimension>) returns (s: Summary)
    ensures PassesMore(s, from, dims) && SameStates(s, from)
  {
    s := from;
    for i := 0 to |dims|
      invariant PassesMore(s, from, dims[..i]) && SameStates(s, from)
    {
      PassesMoreStep(s, from, dims[..i], dims[i]);
      assert dims[..i + 1] == dims[..i] + [dims[i]];
      s := TallyDimension(s, dims[i]);
    }
    assert dims[..|dims|] == dims;
  }

  lemma {:induction false} PassesStep(s: Summary, from: Summary, rs: seq<Record>, r: Record)
    requires Passes(from, rs) && PassesMore(s, from, r.dimensions)
    ensures Passes(s, rs + [r])
  {
    SumSnoc(PassedIn(DictionaryKey), rs, r);
    SumSnoc(PassedIn(RegistryKey), rs, r);
    SumSnoc(PassedIn(DecodeKey), rs, r);
    SumSnoc(PassedIn(ReplyKey), rs, r);
    SumSnoc(PassedIn(PolicyKey), rs, r);
    SumSnoc(PassedIn(ExternalKey), rs, r);
  }

  /** `summarizeCompatibilityEvidence`. */
  method Summarize(rs: seq<Record>) returns (s: Summary)
    ensures s.total == |rs| && Tallied(s, rs) && Passes(s, rs)
  {
    s := Summary(|rs|, 0, 0, 0, 0, 0, 0, 0, 0, 0, 0, 0, 0);
    for i := 0 to |rs|
      invariant s.total == |rs| && Tallied(s, rs[..i]) && Passes(s, rs[..i])
    {
      assert rs[..i + 1] == rs[..i] + [rs[i]];
      TallyStep(s, rs[..i], rs[i]);
      var tallied := Tally(s, rs[i]);
      s := TallyDimensions(tallied, rs[i].dimensions);
      PassesStep(s, tallied, rs[..i], rs[i]);
    }
    assert rs[..|rs|] == rs;
  }

  ghost predicate IsReport(ctx: Context, packs: seq<Pack>, report: Report) {
    && report.version == SCHEMA_VERSION && report.profileID == ReleaseKeys.PROFILE_ID && report.sourceSHA256 == ctx.sha
    && report.records == StableSort(RecordNotAfter, Built(ctx, packs))
    && report.summary.total == |report.records| && Tallied(report.summary, report.records)
    && Passes(report.summary, report.records)
  }

  method BuildJob<R>(ctx: Context, registry: AttributeRegistry, build: (Job, Option<Entry>) -> R, j: Job)
    returns (record: R)
    requires registry.Valid() && registry.names == ctx.names && registry.entries == ctx.entries
    ensures record == Located(ctx, build)(j)
  {
    var entry := registry.LookupPackAttribute(j.pack, j.mapping.attribute);
    assert entry == FoundEntry(ctx, j);
    record := build(j, entry);
  }

  /** The loop over the mappings of one pack. */
  method BuildPack<R>(ctx: Context, registry: AttributeRegistry, build: (Job, Option<Entry>) -> R, pack: Pack)
    returns (records: seq<R>)
    requires registry.Valid() && registry.names == ctx.names && registry.entries == ctx.entries
    ensures records == Mapped(Located(ctx, build), PackJobs(pack))
  {
    records := [];
    var jobs := PackJobs(pack);
    ghost var f := Located(ctx, build);
    for k := 0 to |jobs|
      invariant |records| == k && forall i :: 0 <= i < k ==> records[i] == f(jobs[i])
    {
      var record := BuildJob(ctx, registry, build, jobs[k]);
      records := records + [record];
    }
  }

  /** The loop over packs. */
  method BuildRecords<R>(ctx: Context, registry: AttributeRegistry, build: (Job, Option<Entry>) -> R, packs: seq<Pack>)
    returns (records: seq<R>)
    requires registry.Valid() && registry.names == ctx.names && registry.entries == ctx.entries
    ensures records == Mapped(Located(ctx, build), Jobs(packs))
  {
    records := [];
    for i := 0 to |packs|
      invariant records == Mapped(Located(ctx, build), Jobs(packs[..i]))
    {
      assert packs[..i + 1][..i] == packs[..i];
      MappedConcat(Located(ctx, build), Jobs(packs[..i]), PackJobs(packs[i]));
      var more := BuildPack(ctx, registry, build, packs[i]);
      records := records + more;
    }
    assert packs[..|packs|] == packs;
  }

  /** `BuildCompatibilityEvidenceReport` against a finished registry. */
  method BuildReport(registry: AttributeRegistry, ctx: Context, packs: seq<Pack>, activeKeys: seq<string>)
    returns (report: Report)
    requires registry.Valid() && registry.names == ctx.names && registry.entries == ctx.entries
    requires ctx.active == C.ActiveSet(ctx.normalizePack, activeKeys)
    ensures IsReport(ctx, packs, report)
  {
    var coverage := C.BuildReport(ctx.names, ctx.normalizePack, ctx.vendors, packs, activeKeys);
    var table := CoverageByMapping(ctx.normalizePack, coverage.rows);
    RowPairsAreJobs(ctx, packs, coverage.rows);
    var mappings := BuildRuntimeMappings(ctx.order, registry.entries);
    var records := BuildRecords(ctx, registry, Builder(ctx, table, RuntimeEvidence(ctx.normalizePack, mappings)),
                                packs);
    records := StableSort(RecordNotAfter, records);
    var summary := Summarize(records);
    report := Report(SCHEMA_VERSION, ReleaseKeys.PROFILE_ID, ctx.sha, summary, records);
  }

  // ----- the validator

  predicate AcceptableRecord(r: Record) {
    !Blank(r.id) && r.certification != Claimed && r.ready == (r.software == Ready) && |r.dimensions| > 0
  }

  ghost predicate Acceptable(report: Report) {
    && report.version == SCHEMA_VERSION && !Blank(report.profileID) && !Blank(report.sourceSHA256)
    && (forall i :: 0 <= i < |report.records| ==> AcceptableRecord(report.records[i]))
    && UniqueKeys(IDOf, report.records)
  }

  /** `ValidateCompatibilityEvidenceReport`. */
  method ValidateReport(report: Report) returns (ok: bool)
    ensures ok <==> Acceptable(report)
  {
    if report.version != SCHEMA_VERSION || Blank(report.profileID) || Blank(report.sourceSHA256) {
      return false;
    }
    ok := ValidateEach(AcceptableRecord, IDOf, report.records);
  }
}

/** External vendor intake (configs/external_vendor_intake.go): request checks, record building, summary,
    status and validator. They are separate pieces of code; IntakeLaws proves that they decide the same
    thing. Messages are values of `Blocker`, since only their presence decides anything. */
module Intake {
  import opened Text
  import opened Sequences
  import opened Wrappers
  import opened Numbers
  import opened SemanticSets
  import opened Dictionary
  import opened DictionaryParser
  import opened RegistryModel
  import opened RuntimeMappings
  import opened PackKeys
  import ReleaseKeys
  import C = Coverage
  import L = LongTail

  const MAX_BYTES := 1024 * 1024
  const MAX_ATTRIBUTES := 2048
  const PLACEHOLDER_PEN := 55555

  datatype Request = Request(vendorName: string, pen: nat, intendedPackKey: string, dictionaryText: string,
                             sourceURL: string, sourceSHA256: string, licenseID: string, licenseReference: string,
                             upstreamVersion: string, retrievedAt: string)

  /** What the intake calls out to: numerals, name normalisers, the semantic classifier, hashing, time parsing and the
      pinned corpus. */
  datatype Environment = Environment(
    read: NumberReader,
    names: Names,
    semantic: Entry -> string,
    sha256: string -> string,
    parsesAsTime: string -> bool,
    inPinnedCorpus: (string, nat) -> bool,
    registrySHA256: string,
    fingerprint: seq<Record> -> string)

  datatype SoftwareState = Ready | Blocked

  datatype Blocker =
    | VendorNameRequired | PENRequired | TextRequired | TextTooLong | SourceURLRequired | SourceURLScheme
    | SHARequired | SHAFormat | SHAMismatch | LicenseNotAllowed | LicenseReferenceRequired | VersionRequired
    | RetrievedAtInvalid | PackKeyInvalid | NoVendor | VendorUnmatched | VendorWithoutPEN | NoAttributes
    | TooManyAttributes(count: nat) | EmptyName | DuplicateName(name: string)
    | SharedNumber(first: string, second: string, number: int)
    | SharedOID(first: string, second: string, oid: string) | UnsupportedType(name: string, kind: string)
    | NumberTooLarge(name: string, number: int) | InPinnedCorpus | PENMismatch(dictionary: int)

  datatype RecordBlocker = UnsupportedWireType | NumberOrOIDRequired

  datatype Record = Record(
    id: string, vendor: string, pen: nat, packKey: string, attribute: string, number: nat, oid: string, wireKey: string,
    wireType: string, enumerated: nat, semantic: string, directions: seq<string>, decode: Decoder, class_: string,
    packetProcessing: string, policyEngine: string, storage: string,
    state: SoftwareState, externalRequired: bool, readyForExternal: bool, blockers: seq<RecordBlocker>)

  datatype Summary = Summary(
    attributeCount: nat, runtimeDecodable: nat, metadataOnly: nat, native: nat, passthrough: nat, redacted: nat,
    enumerated: nat, ready: nat, blocked: nat, readyForExternal: nat, externalRequired: nat, blockerCount: nat,
    fingerprint: string)

  datatype Standing = Accepted | Verified | Classified | Refused

  datatype Provenance = Provenance(license: Standing, provenance: Standing, pen: Standing, semantic: Standing)

  /** What a report says about its own format. */
  datatype Format = Format(version: int, featureID: string, profileID: string)

  const FORMAT := Format(1, "NAS-0073", ReleaseKeys.PROFILE_ID)

  datatype Report = Report(
    format: Format, status: SoftwareState, registrySHA256: string, canonicalName: string, pen: nat, packKey: string,
    inPinnedCorpus: bool, outOfCorpus: bool,
    sourceURL: string, sourceSHA256: string, computedSHA256: string, states: Provenance,
    summary: Summary, records: seq<Record>, blockers: seq<Blocker>)

  // ----- field checks

  /** `normalizeExternalVendorIntakeRequest`. */
  function Normalize(r: Request): Request {
    Request(Trim(r.vendorName), r.pen, Trim(r.intendedPackKey), Trim(r.dictionaryText), Trim(r.sourceURL),
            Lower(Trim(r.sourceSHA256)),
            Trim(r.licenseID), Trim(r.licenseReference), Trim(r.upstreamVersion), Trim(r.retrievedAt))
  }

  predicate ValidSourceURL(url: string) {
    var u := Lower(Trim(url));
    "https://" <= u || "git+https://" <= u || "urn:sha256:" <= u
  }

  predicate IsHex(c: char) {
    IsDigit(c) || 'a' <= c <= 'f' || 'A' <= c <= 'F'
  }

  predicate ValidSHA256(text: string) {
    var t := Trim(text);
    |t| == 64 && forall c <- t :: IsHex(c)
  }

  predicate AllowedLicense(id: string) {
    Trim(id) in {"BSD-2-Clause", "BSD-3-Clause", "MIT", "Apache-2.0", "ISC", "Proprietary-Allowed-With-Grant"}
  }

  predicate ValidRetrievedAt(env: Environment, text: string) {
    !Blank(text) && env.parsesAsTime(Trim(text))
  }

  // ----- dictionary checks

  /** The seen-maps of `externalVendorDictionaryBlockers`. */
  datatype Seen = Seen(names: set<string>, numbers: map<int, string>, oids: map<string, string>)

  function AttributeBlockers(seen: Seen, a: Attribute): seq<Blocker> {
    var name, oid := Lower(Trim(a.name)), Trim(a.oid);
    (if name == "" then [EmptyName] else if name in seen.names then [DuplicateName(a.name)] else []) +
    (if a.number > 0 && a.number in seen.numbers then [SharedNumber(seen.numbers[a.number], a.name, a.number)]
     else []) +
    (if oid != "" && oid in seen.oids then [SharedOID(seen.oids[oid], a.name, oid)] else []) +
    (if !L.ValidType(a.kind) then [UnsupportedType(a.name, a.kind)] else []) +
    (if a.number > 255 then [NumberTooLarge(a.name, a.number)] else [])
  }

  function Note(seen: Seen, a: Attribute): Seen {
    var oid := Trim(a.oid);
    Seen(seen.names + {Lower(Trim(a.name))},
         if a.number > 0 then seen.numbers[a.number := a.name] else seen.numbers,
         if oid != "" then seen.oids[oid := a.name] else seen.oids)
  }

  function DictionaryMessages(seen: Seen, attributes: seq<Attribute>): seq<Blocker>
    decreases |attributes|
  {
    if attributes == [] then []
    else AttributeBlockers(seen, attributes[0]) + DictionaryMessages(Note(seen, attributes[0]), attributes[1..])
  }

  const NOTHING_SEEN := Seen({}, map[], map[])

  function SameBlocker(b: Blocker): Blocker {
    b
  }

  /** The value of `externalVendorDictionaryBlockers`. */
  function DictionaryBlockers(vendor: Vendor): seq<Blocker> {
    Distinct(SameBlocker, {}, DictionaryMessages(NOTHING_SEEN, vendor.attributes))
  }

  /** `externalVendorDictionaryBlockers` as it runs. */
  method CollectDictionaryBlockers(vendor: Vendor) returns (blockers: seq<Blocker>)
    ensures blockers == DictionaryBlockers(vendor)
  {
    var messages: seq<Blocker> := [];
    var seen := NOTHING_SEEN;
    var attributes := vendor.attributes;
    assert attributes[0..] == attributes;
    for i := 0 to |attributes|
      invariant messages + DictionaryMessages(seen, attributes[i..]) == DictionaryMessages(NOTHING_SEEN, attributes)
    {
      assert attributes[i..][0] == attributes[i] && attributes[i..][1..] == attributes[i + 1..];
      var found := AttributeBlockers(seen, attributes[i]);
      ghost var rest := DictionaryMessages(Note(seen, attributes[i]), attributes[i + 1..]);
      assert messages + (found + rest) == (messages + found) + rest;
      messages := messages + found;
      seen := Note(seen, attributes[i]);
    }
    assert attributes[|attributes|..] == [] && messages + [] == messages;
    blockers := AppendDistinct(SameBlocker, [], messages);
    assert Keys(SameBlocker, []) == {};
    assert [] + Distinct(SameBlocker, {}, messages) == Distinct(SameBlocker, {}, messages);
  }

  // ----- vendor selection

  const NO_VENDOR := Vendor("", 0, [], [])

  function VendorByPEN(vendors: seq<Vendor>, pen: nat): Option<Vendor> {
    if vendors == [] then None
    else if ToUint32(vendors[0].id) == pen then Some(vendors[0])
    else VendorByPEN(vendors[1..], pen)
  }

  /** `selectExternalVendorDictionary`. */
  function SelectVendor(env: Environment, catalog: Catalog, r: Request): Vendor {
    var named := C.VendorByName(env.names, catalog.vendors, r.vendorName);
    if named.Some? then named.value
    else
      var numbered := if r.pen > 0 then VendorByPEN(catalog.vendors, r.pen) else None;
      if numbered.Some? then numbered.value
      else if |catalog.vendors| == 1 then catalog.vendors[0]
      else NO_VENDOR
  }

  // ----- request checks

  function When(condition: bool, blocker: Blocker): seq<Blocker> {
    if condition then [blocker] else []
  }

  function RequestMessages(env: Environment, r: Request, sha: string, catalog: Catalog, vendor: Vendor): seq<Blocker> {
    When(Blank(r.vendorName), VendorNameRequired) +
    When(r.pen == 0 || r.pen == PLACEHOLDER_PEN, PENRequired) +
    When(|r.dictionaryText| == 0, TextRequired) +
    When(|r.dictionaryText| > MAX_BYTES, TextTooLong) +
    (if Blank(r.sourceURL) then [SourceURLRequired] else When(!ValidSourceURL(r.sourceURL), SourceURLScheme)) +
    (if Blank(r.sourceSHA256) then [SHARequired] else if !ValidSHA256(r.sourceSHA256) then [SHAFormat]
     else When(!EqualFold(r.sourceSHA256, sha), SHAMismatch)) +
    When(!AllowedLicense(r.licenseID), LicenseNotAllowed) +
    When(Blank(r.licenseReference), LicenseReferenceRequired) +
    When(Blank(r.upstreamVersion), VersionRequired) +
    When(!ValidRetrievedAt(env, r.retrievedAt), RetrievedAtInvalid) +
    When(!Blank(r.intendedPackKey) && !ValidPackKey(r.intendedPackKey), PackKeyInvalid) +
    When(|catalog.vendors| == 0, NoVendor) +
    When(Blank(vendor.name), VendorUnmatched) +
    When(vendor.id == 0, VendorWithoutPEN) +
    When(|vendor.attributes| == 0, NoAttributes) +
    When(|vendor.attributes| > MAX_ATTRIBUTES, TooManyAttributes(|vendor.attributes|)) +
    DictionaryBlockers(vendor)
  }

  /** `externalVendorRequestBlockers`. */
  function RequestBlockers(env: Environment, r: Request, sha: string, catalog: Catalog, vendor: Vendor): seq<Blocker> {
    Distinct(SameBlocker, {}, RequestMessages(env, r, sha, catalog, vendor))
  }

  predicate Mismatched(vendor: Vendor, pen: nat) {
    vendor.id > 0 && ToUint32(vendor.id) != pen
  }

  // ----- records

  function RecordID(pen: nat, number: nat, oid: string, attribute: string): string {
    "nas-0073:" + Decimal(pen) + ":" + (if number > 0 then Decimal(number) else Lower(oid)) + ":" + Lower(attribute)
  }

  /** The registry entry of an attribute, before its capability is known. */
  function BareEntry(env: Environment, a: Attribute, canonical: string, pen: nat, packKey: string): Entry {
    var number, oid := ToUint32(if a.number < 0 then 0 else a.number), Trim(a.oid);
    Entry("external-authoritative", "", if number > 0 then WireKey(pen, number) else "vsa:" + Decimal(pen) + ":" + oid,
          canonical, pen, env.names.attribute(canonical, a.name), number, oid, Lower(Trim(a.kind)), "", PARTIAL,
          packKey, "", "external-intake:NAS-0073", [], "", "", "", 0)
  }

  function Capable(e: Entry): Entry {
    e.(family := L.Capability(e))
  }

  /** The registry entry a record is classified from. */
  function IntakeEntry(env: Environment, a: Attribute, canonical: string, pen: nat, packKey: string): Entry {
    Capable(BareEntry(env, a, canonical, pen, packKey))
  }

  function RecordBlockers(e: Entry): seq<RecordBlocker> {
    (if !L.ValidType(e.wireType) then [UnsupportedWireType] else []) +
    (if e.number == 0 && Blank(e.oid) then [NumberOrOIDRequired] else [])
  }

  /** The record of a classified entry from the parts derived from it. */
  function RecordWith(e: Entry, semantic: string, enumerated: nat, directions: seq<string>, decode: Decoder,
                      class_: string, processing: string, policy: string, storage: string): Record {
    var blockers := RecordBlockers(e);
    Record(RecordID(e.pen, e.number, e.oid, e.attribute), e.vendor, e.pen, e.packKey, e.attribute, e.number, e.oid,
           e.wireKey, e.wireType, enumerated, semantic, directions, decode, class_, processing, policy, storage,
           if blockers == [] then Ready else Blocked, true, blockers == [], blockers)
  }

  /** The record of a classified entry. */
  function MakeRecord(e: Entry, semantic: string, enumerated: nat): Record {
    var classified := e.(semantic := semantic);
    var directed := classified.(directions := L.Directions(classified, semantic));
    var class_ := L.ImplementationClass(directed, semantic);
    RecordWith(e, semantic, enumerated, directed.directions, L.DecoderFor(directed, semantic), class_,
               L.PacketProcessing(directed, class_), L.PolicyState(semantic, class_), L.StorageState(class_))
  }

  /** `buildExternalVendorIntakeRecords`, one attribute. */
  function BuildRecord(env: Environment, a: Attribute, canonical: string, pen: nat, packKey: string): Record {
    var e := IntakeEntry(env, a, canonical, pen, packKey);
    MakeRecord(e, env.semantic(e), |a.values|)
  }

  function RecordsOf(env: Environment, attributes: seq<Attribute>, canonical: string, pen: nat,
                     packKey: string): seq<Record> {
    Mapped((a: Attribute) => BuildRecord(env, a, canonical, pen, packKey), attributes)
  }

  predicate RecordBefore(a: Record, b: Record) {
    if a.number != b.number then a.number < b.number
    else if a.oid != b.oid then Less(a.oid, b.oid)
    else Less(a.attribute, b.attribute)
  }

  predicate RecordNotAfter(a: Record, b: Record) {
    !RecordBefore(b, a)
  }

  function Records(env: Environment, attributes: seq<Attribute>, canonical: string, pen: nat,
                   packKey: string): seq<Record> {
    StableSort(RecordNotAfter, RecordsOf(env, attributes, canonical, pen, packKey))
  }

  // ----- summary and status

  predicate Decodable(r: Record) {
    1 <= r.number <= 255
  }

  predicate PassesThrough(r: Record) {
    r.class_ == "typed_passthrough" || r.class_ == "typed_binary_evidence" || First(r.semantic) == L.POLICY_TAG
  }

  predicate Redacted(r: Record) {
    r.class_ == "redacted_secret_evidence"
  }

  predicate SoftwareReady(r: Record) {
    r.blockers == [] && r.state == Ready
  }

  predicate ReadyForExternal(r: Record) {
    r.readyForExternal
  }

  predicate ExternalRequired(r: Record) {
    r.externalRequired
  }

  function EnumeratedTotal(rs: seq<Record>): nat {
    if rs == [] then 0 else EnumeratedTotal(rs[..|rs| - 1]) + rs[|rs| - 1].enumerated
  }

  function RecordBlockerTotal(rs: seq<Record>): nat {
    if rs == [] then 0
    else
      var last := rs[|rs| - 1];
      RecordBlockerTotal(rs[..|rs| - 1]) + if SoftwareReady(last) then 0 else |last.blockers|
  }

  /** What the summary counts, said record class by record class. */
  ghost predicate Summarizes(s: Summary, rs: seq<Record>, blockers: nat) {
    && s.attributeCount == |rs|
    && s.runtimeDecodable == Count(Decodable, rs) && s.metadataOnly == |rs| - Count(Decodable, rs)
    && s.passthrough == Count(PassesThrough, rs) && s.native == |rs| - Count(PassesThrough, rs)
    && s.redacted == Count(Redacted, rs) && s.enumerated == EnumeratedTotal(rs)
    && s.ready == Count(SoftwareReady, rs) && s.blocked == |rs| - Count(SoftwareReady, rs)
    && s.readyForExternal == Count(ReadyForExternal, rs) && s.externalRequired == Count(ExternalRequired, rs)
    && s.blockerCount == blockers + RecordBlockerTotal(rs)
  }

  /** `summarizeExternalVendorIntake`: one pass with counters. */
  method Summarize(rs: seq<Record>, blockers: nat, fingerprint: string) returns (s: Summary)
    ensures Summarizes(s, rs, blockers) && s.fingerprint == fingerprint
  {
    s := Summary(0, 0, 0, 0, 0, 0, 0, 0, 0, 0, 0, blockers, fingerprint);
    for i := 0 to |rs|
      invariant Summarizes(s, rs[..i], blockers) && s.fingerprint == fingerprint
    {
      TallyStep(s, rs[..i], rs[i], blockers);
      assert rs[..i + 1] == rs[..i] + [rs[i]];
      s := Tally(s, rs[i]);
    }
    assert rs[..|rs|] == rs;
  }

  /** One turn of the summary loop. */
  function Tally(s: Summary, r: Record): Summary {
    var passthrough := r.class_ == "typed_passthrough" || r.class_ == "typed_binary_evidence";
    var native := !passthrough && First(r.semantic) != L.POLICY_TAG;
    var ready := r.blockers == [] && r.state == Ready;
    Summary(s.attributeCount + 1,
            s.runtimeDecodable + One(1 <= r.number <= 255), s.metadataOnly + One(!(1 <= r.number <= 255)),
            s.native + One(native), s.passthrough + One(!native),
            s.redacted + One(r.class_ == "redacted_secret_evidence"),
            s.enumerated + r.enumerated, s.ready + One(ready), s.blocked + One(!ready),
            s.readyForExternal + One(r.readyForExternal), s.externalRequired + One(r.externalRequired),
            s.blockerCount + if ready then 0 else |r.blockers|, s.fingerprint)
  }

  lemma {:induction false} TallyStep(s: Summary, rs: seq<Record>, r: Record, blockers: nat)
    requires Summarizes(s, rs, blockers)
    ensures Summarizes(Tally(s, r), rs + [r], blockers)
  {
    CountSnoc(Decodable, rs, r);
    CountSnoc(PassesThrough, rs, r);
    CountSnoc(Redacted, rs, r);
    CountSnoc(SoftwareReady, rs, r);
    CountSnoc(ReadyForExternal, rs, r);
    CountSnoc(ExternalRequired, rs, r);
    assert (rs + [r])[..|rs|] == rs;
  }

  /** `externalVendorIntakeStatus`. */
  function Status(blockers: seq<Blocker>, s: Summary): SoftwareState {
    if |blockers| > 0 || s.blocked > 0 || s.attributeCount == 0 then Blocked else Ready
  }

  /** `applyExternalVendorIntakeStates`. */
  function States(env: Environment, r: Request, sha: string, pinned: bool, vendor: Vendor): Provenance {
    Provenance(
      if !AllowedLicense(r.licenseID) || Blank(r.licenseReference) then Refused else Accepted,
      if Blank(r.sourceURL) || !ValidSourceURL(r.sourceURL) || Blank(r.sourceSHA256) || !ValidSHA256(r.sourceSHA256)
        || !EqualFold(r.sourceSHA256, sha)
         || !ValidRetrievedAt(env, r.retrievedAt) then Refused else Verified,
      if r.pen == 0 || r.pen == PLACEHOLDER_PEN || pinned || Mismatched(vendor, r.pen) then Refused else Verified,
      if |vendor.attributes| == 0 || |DictionaryBlockers(vendor)| > 0 then Refused else Classified)
  }

  // ----- the report

  /** The report for a request, piece by piece. */
  ghost predicate IsReport(env: Environment, request: Request, report: Report) {
    var r := Normalize(request);
    var sha := env.sha256(Trim(r.dictionaryText));
    var catalog := ParseCatalog(env.read, r.sourceURL, r.dictionaryText);
    var vendor := SelectVendor(env, catalog, r);
    var canonical := env.names.vendor(L.FirstNonEmpty(vendor.name, r.vendorName));
    var packKey := PackKey(r.intendedPackKey, canonical);
    var pinned := env.inPinnedCorpus(canonical, r.pen);
    && report.format == FORMAT && report.registrySHA256 == env.registrySHA256
    && report.canonicalName == canonical && report.pen == r.pen && report.packKey == packKey
    && report.inPinnedCorpus == pinned && report.outOfCorpus == !pinned
    && report.sourceURL == r.sourceURL && report.sourceSHA256 == Lower(r.sourceSHA256) && report.computedSHA256 == sha
    && report.blockers == RequestBlockers(env, r, sha, catalog, vendor) + When(pinned, InPinnedCorpus)
      + When(Mismatched(vendor, r.pen), PENMismatch(vendor.id))
    && report.records == Records(env, vendor.attributes, canonical, r.pen, packKey)
    && report.states == States(env, r, sha, pinned, vendor)
    && Summarizes(report.summary, report.records, |report.blockers|)
    && report.summary.fingerprint == env.fingerprint(report.records)
    && report.status == Status(report.blockers, report.summary)
  }

  lemma {:induction false} FilterEverything(attributes: seq<Attribute>)
    ensures Filter((a: Attribute) => true, attributes) == attributes
  {
    if attributes != [] {
      FilterEverything(attributes[1..]);
    }
  }

  /** `BuildExternalVendorIntakeReport`. */
  method BuildReport(env: Environment, request: Request) returns (report: Report)
    ensures IsReport(env, request, report)
  {
    var r := Normalize(request);
    var sha := env.sha256(Trim(r.dictionaryText));
    var catalog := ParseVendorDictionaryCatalog(env.read, r.sourceURL, r.dictionaryText);
    var vendor := SelectVendor(env, catalog, r);
    var canonical := env.names.vendor(L.FirstNonEmpty(vendor.name, r.vendorName));
    var packKey := PackKey(r.intendedPackKey, canonical);
    var pinned := env.inPinnedCorpus(canonical, r.pen);
    var blockers := RequestBlockers(env, r, sha, catalog, vendor) + When(pinned, InPinnedCorpus)
      + When(Mismatched(vendor, r.pen), PENMismatch(vendor.id));
    var built := Collect((a: Attribute) => true, (a: Attribute) => BuildRecord(env, a, canonical, r.pen, packKey),
                         vendor.attributes);
    FilterEverything(vendor.attributes);
    var records := StableSort(RecordNotAfter, built);
    var states := States(env, r, sha, pinned, vendor);
    var summary := Summarize(records, |blockers|, env.fingerprint(records));
    report := Report(FORMAT, Status(blockers, summary), env.registrySHA256, canonical, r.pen, packKey, pinned, !pinned,
                     r.sourceURL, Lower(r.sourceSHA256), sha, states, summary, records, blockers);
  }

  // ----- the validator

  predicate AcceptableRecord(r: Record) {
    && !Blank(r.id) && r.state == Ready && r.readyForExternal && r.externalRequired
    && !Blank(r.wireKey) && !Blank(r.wireType) && |r.directions| > 0
    && !Blank(r.packetProcessing) && !Blank(r.policyEngine) && !Blank(r.storage)
    && (1 <= r.number <= 255 ==> !Blank(r.decode.kind))
  }

  function IDOf(r: Record): string {
    r.id
  }

  predicate AcceptableHeader(report: Report) {
    && report.format.version == FORMAT.version && report.format.featureID == FORMAT.featureID
    && !Blank(report.format.profileID)
    && report.status == Ready && !Blank(report.registrySHA256)
    && !Blank(report.canonicalName) && report.pen != 0 && report.outOfCorpus && !report.inPinnedCorpus
    && !Blank(report.sourceURL) && !Blank(report.sourceSHA256) && !Blank(report.computedSHA256)
    && EqualFold(report.sourceSHA256, report.computedSHA256)
    && report.states == Provenance(Accepted, Verified, Verified, Classified)
    && 0 < report.summary.attributeCount <= MAX_ATTRIBUTES
    && report.summary.blocked == 0 && report.summary.ready == report.summary.attributeCount
    && report.summary.externalRequired == report.summary.attributeCount
    && report.summary.readyForExternal == report.summary.attributeCount
    && !Blank(report.summary.fingerprint)
  }

  /** What the validator accepts: the header checks, every record check, and distinct record IDs. */
  ghost predicate Acceptable(report: Report) {
    && AcceptableHeader(report)
    && (forall i :: 0 <= i < |report.records| ==> AcceptableRecord(report.records[i]))
    && UniqueKeys(IDOf, report.records)
  }

  /** `ValidateExternalVendorIntakeReport`. */
  method ValidateReport(report: Report) returns (ok: bool)
    ensures ok <==> Acceptable(report)
  {
    if !AcceptableHeader(report) {
      return false;
    }
    ok := ValidateEach(AcceptableRecord, IDOf, report.records);
  }

  // ----- runtime mappings

  function IntakeMapping(r: Record): RuntimeMapping {
    RuntimeMapping(r.packKey, r.pen, ToByte(r.number), r.attribute,
                   L.FirstNonEmpty(r.decode.semantic, First(r.semantic)), r.decode.kind, r.decode.scale)
  }

  function IntakeMappings(rs: seq<Record>): seq<RuntimeMapping> {
    Mapped(IntakeMapping, Filter(Decodable, rs))
  }

  /** `ExternalVendorIntakeRuntimeMappings`: nothing for a report that does not validate. */
  method RuntimeMappingsOf(report: Report) returns (result: Option<seq<RuntimeMapping>>)
    ensures result == if Acceptable(report) then Some(IntakeMappings(report.records)) else None
  {
    var ok := ValidateReport(report);
    if !ok {
      return None;
    }
    var out := Collect(Decodable, IntakeMapping, report.records);
    result := Some(out);
  }
}

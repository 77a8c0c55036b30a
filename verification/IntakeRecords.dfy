/** What the intake's record of one dictionary attribute says, and that names which look like secrets are
    redacted all the way (configs/external_vendor_intake.go, configs/long_tail_namespace.go). */
module IntakeRecords {
  import opened Text
  import opened Sequences
  import opened Numbers
  import opened SemanticSets
  import opened Dictionary
  import opened RegistryModel
  import opened Intake
  import PackKeys
  import L = LongTail

  /** The number a record carries: that of the attribute in 32 bits, 0 for a negative one. */
  function NumberFor(a: Attribute): nat {
    if a.number <= 0 then 0 else a.number % 0x1_0000_0000
  }

  /** What identifies the attribute: its normalised name, its number or its OID, and the wire key of
      whichever it has. */
  ghost predicate Identifies(env: Environment, a: Attribute, canonical: string, pen: nat, packKey: string, r: Record) {
    && r.vendor == canonical && r.pen == pen && r.packKey == packKey
    && r.attribute == env.names.attribute(canonical, a.name)
    && r.number == NumberFor(a) && r.oid == Trim(a.oid)
    && r.wireKey == "vsa:" + Decimal(pen) + ":" + (if r.number > 0 then Decimal(r.number) else r.oid)
    && r.wireType == Lower(Trim(a.kind)) && r.enumerated == |a.values|
  }

  /** It is blocked exactly when its type is unknown or it has neither number nor OID. */
  ghost predicate JudgesRecord(r: Record) {
    && (UnsupportedWireType in r.blockers <==> !L.ValidType(r.wireType))
    && (NumberOrOIDRequired in r.blockers <==> r.number == 0 && Blank(r.oid))
    && (r.state == Ready <==> L.ValidType(r.wireType) && (r.number > 0 || !Blank(r.oid)))
    && (r.state == Ready <==> r.blockers == []) && r.readyForExternal == (r.state == Ready)
    && r.state in {Ready, Blocked} && r.externalRequired
  }

  /** The record of an attribute says so of it. */
  lemma {:induction false} RecordReflects(env: Environment, a: Attribute, canonical: string, pen: nat, packKey: string)
    ensures var r := BuildRecord(env, a, canonical, pen, packKey);
            Identifies(env, a, canonical, pen, packKey, r) && JudgesRecord(r)
  {
    var e := IntakeEntry(env, a, canonical, pen, packKey);
    var blockers := RecordBlockers(e);
    assert e.number == NumberFor(a);
    assert e.wireKey == "vsa:" + Decimal(pen) + ":" + (if e.number > 0 then Decimal(e.number) else e.oid);
    BlockersSay(e);
  }

  lemma {:induction false} BlockersSay(e: Entry)
    ensures var blockers := RecordBlockers(e);
            && (UnsupportedWireType in blockers <==> !L.ValidType(e.wireType))
            && (NumberOrOIDRequired in blockers <==> e.number == 0 && Blank(e.oid))
  {
  }

  /** Two requests that differ in outer spaces, and in the case of the hash, only. */
  ghost predicate SameUpToSpaces(a: Request, b: Request) {
    && Trim(a.vendorName) == Trim(b.vendorName) && a.pen == b.pen
    && Trim(a.intendedPackKey) == Trim(b.intendedPackKey) && Trim(a.dictionaryText) == Trim(b.dictionaryText)
    && Trim(a.sourceURL) == Trim(b.sourceURL) && Lower(Trim(a.sourceSHA256)) == Lower(Trim(b.sourceSHA256))
    && Trim(a.licenseID) == Trim(b.licenseID) && Trim(a.licenseReference) == Trim(b.licenseReference)
    && Trim(a.upstreamVersion) == Trim(b.upstreamVersion) && Trim(a.retrievedAt) == Trim(b.retrievedAt)
  }

  /** Such requests have the same reports. */
  lemma {:induction false} SpacesAreIgnored(env: Environment, a: Request, b: Request, report: Report)
    requires SameUpToSpaces(a, b)
    ensures IsReport(env, a, report) <==> IsReport(env, b, report)
  {
    assert Normalize(a) == Normalize(b);
  }

  // ----- secrets

  /** Nothing of a secret is processed, judged by or stored in clear. */
  ghost predicate IsRedacted(r: Record) {
    && r.class_ == "redacted_secret_evidence"
    && r.packetProcessing == "runtime_vsa_decoder_with_redacted_secret_evidence_and_hash_only_storage"
    && r.policyEngine == "secret_metadata_without_cleartext_policy_input"
    && r.storage == "event_ledger_hash_only_no_cleartext_secret_persistence"
    && r.decode.kind in {"", "octets_hex"}
  }

  /** Exactly the attributes whose normalised name looks like a secret are redacted, in every respect. */
  lemma {:induction false} SecretsAreRedacted(env: Environment, a: Attribute, canonical: string, pen: nat,
                                              packKey: string)
    ensures var r := BuildRecord(env, a, canonical, pen, packKey);
            && (L.Sensitive(r.attribute) ==> IsRedacted(r))
            && (Redacted(r) <==> L.Sensitive(r.attribute))
  {
    var e := IntakeEntry(env, a, canonical, pen, packKey);
    SecretEntry(e, env.semantic(e), |a.values|);
  }

  lemma {:induction false} SecretEntry(e: Entry, semantic: string, enumerated: nat)
    ensures var r := MakeRecord(e, semantic, enumerated);
            && r.attribute == e.attribute && (L.Sensitive(e.attribute) ==> IsRedacted(r))
            && (Redacted(r) <==> L.Sensitive(e.attribute))
  {
    var classified := e.(semantic := semantic);
    var directed := classified.(directions := L.Directions(classified, semantic));
    var class_ := L.ImplementationClass(directed, semantic);
    SecretClass(directed, semantic);
    SecretRecord(e, semantic, enumerated, directed.directions, L.DecoderFor(directed, semantic), class_,
                 L.PacketProcessing(directed, class_), L.PolicyState(semantic, class_), L.StorageState(class_));
    if L.Sensitive(e.attribute) {
      SecretDecoder(directed, semantic);
      SecretStates(directed, semantic, class_);
    }
  }

  lemma {:induction false} SecretRecord(e: Entry, semantic: string, enumerated: nat, directions: seq<string>,
                                        decode: Decoder, class_: string, processing: string, policy: string,
                                        storage: string)
    ensures var r := RecordWith(e, semantic, enumerated, directions, decode, class_, processing, policy, storage);
            && r.attribute == e.attribute && r.class_ == class_ && r.decode == decode
            && r.packetProcessing == processing && r.policyEngine == policy && r.storage == storage
  {
  }

  lemma {:induction false} SecretStates(e: Entry, semantic: string, class_: string)
    requires class_ == "redacted_secret_evidence"
    ensures L.PacketProcessing(e, class_) == "runtime_vsa_decoder_with_redacted_secret_evidence_and_hash_only_storage"
    ensures L.PolicyState(semantic, class_) == "secret_metadata_without_cleartext_policy_input"
    ensures L.StorageState(class_) == "event_ledger_hash_only_no_cleartext_secret_persistence"
  {
  }

  lemma {:induction false} SecretClass(e: Entry, semantic: string)
    ensures L.ImplementationClass(e, semantic) == "redacted_secret_evidence" <==> L.Sensitive(e.attribute)
  {
  }

  lemma {:induction false} SecretDecoder(e: Entry, semantic: string)
    requires L.Sensitive(e.attribute)
    ensures L.DecoderFor(e, semantic).kind in {"", "octets_hex"}
  {
  }

  // ----- provenance states and blockers

  /** No blocker of a list is of a kind. */
  ghost predicate Clear(kind: Blocker -> bool, blockers: seq<Blocker>) {
    forall b <- blockers :: !kind(b)
  }

  lemma {:induction false} ClearConcat(kind: Blocker -> bool, a: seq<Blocker>, b: seq<Blocker>)
    ensures Clear(kind, a + b) <==> Clear(kind, a) && Clear(kind, b)
  {
    if Clear(kind, a + b) {
      assert forall x <- a :: x in a + b;
      assert forall x <- b :: x in a + b;
    }
  }

  lemma {:induction false} ClearWhen(kind: Blocker -> bool, condition: bool, b: Blocker)
    ensures Clear(kind, When(condition, b)) <==> !(condition && kind(b))
  {
    assert condition ==> When(condition, b)[0] == b;
  }

  predicate OfLicense(b: Blocker) {
    b.LicenseNotAllowed? || b.LicenseReferenceRequired?
  }

  predicate OfSource(b: Blocker) {
    || b.SourceURLRequired? || b.SourceURLScheme? || b.SHARequired? || b.SHAFormat? || b.SHAMismatch?
    || b.RetrievedAtInvalid?
  }

  predicate OfNumber(b: Blocker) {
    b.PENRequired? || b.InPinnedCorpus? || b.PENMismatch?
  }

  predicate OfDictionary(b: Blocker) {
    || b.EmptyName? || b.DuplicateName? || b.SharedNumber? || b.SharedOID? || b.UnsupportedType? || b.NumberTooLarge?
  }

  predicate OfAttributes(b: Blocker) {
    b.NoAttributes? || OfDictionary(b)
  }

  ghost predicate AllOfDictionary(blockers: seq<Blocker>) {
    forall b <- blockers :: OfDictionary(b)
  }

  lemma {:induction false} AttributeKinds(seen: Seen, a: Attribute)
    ensures AllOfDictionary(AttributeBlockers(seen, a))
  {
  }

  lemma {:induction false} KindsConcat(a: seq<Blocker>, b: seq<Blocker>)
    requires AllOfDictionary(a) && AllOfDictionary(b)
    ensures AllOfDictionary(a + b)
  {
  }

  lemma {:induction false} DictionaryKinds(seen: Seen, attributes: seq<Attribute>)
    ensures AllOfDictionary(DictionaryMessages(seen, attributes))
    decreases |attributes|
  {
    if attributes != [] {
      DictionaryKinds(Note(seen, attributes[0]), attributes[1..]);
      AttributeKinds(seen, attributes[0]);
      KindsConcat(AttributeBlockers(seen, attributes[0]),
                  DictionaryMessages(Note(seen, attributes[0]), attributes[1..]));
    }
  }

  lemma {:induction false} SameMembers(blockers: seq<Blocker>, b: Blocker)
    ensures b in Distinct(SameBlocker, {}, blockers) <==> b in blockers
  {
    var chosen := Distinct(SameBlocker, {}, blockers);
    DistinctKeys(SameBlocker, {}, blockers);
    if b in blockers {
      assert SameBlocker(b) in Keys(SameBlocker, blockers);
      assert SameBlocker(b) in Keys(SameBlocker, chosen);
    }
  }

  lemma {:induction false} ClearDistinct(kind: Blocker -> bool, blockers: seq<Blocker>)
    ensures Clear(kind, Distinct(SameBlocker, {}, blockers)) <==> Clear(kind, blockers)
  {
    forall b ensures b in Distinct(SameBlocker, {}, blockers) <==> b in blockers {
      SameMembers(blockers, b);
    }
  }

  lemma {:induction false} DictionaryClear(vendor: Vendor)
    ensures Clear(OfLicense, DictionaryBlockers(vendor)) && Clear(OfSource, DictionaryBlockers(vendor))
    ensures Clear(OfNumber, DictionaryBlockers(vendor))
    ensures Clear(OfAttributes, DictionaryBlockers(vendor)) <==> DictionaryBlockers(vendor) == []
  {
    var messages := DictionaryMessages(NOTHING_SEEN, vendor.attributes);
    DictionaryKinds(NOTHING_SEEN, vendor.attributes);
    forall b | b in DictionaryBlockers(vendor) ensures OfDictionary(b) {
      SameMembers(messages, b);
    }
    if DictionaryBlockers(vendor) != [] {
      assert OfAttributes(DictionaryBlockers(vendor)[0]) && DictionaryBlockers(vendor)[0] in DictionaryBlockers(vendor);
    }
  }

  /** Which checks of a request fail, one by one. */
  datatype Failures = Failures(
    name: bool, number: bool, empty: bool, long: bool, noURL: bool, badURL: bool, noHash: bool, badHash: bool,
    otherHash: bool, license: bool, reference: bool, version: bool, time: bool, key: bool, noVendor: bool,
    unmatched: bool, unnumbered: bool, noAttributes: bool, tooMany: bool, dictionary: bool)

  ghost function FailuresOf(env: Environment, r: Request, sha: string, catalog: Catalog, vendor: Vendor): Failures {
    Failures(
      Blank(r.vendorName), r.pen == 0 || r.pen == PLACEHOLDER_PEN, |r.dictionaryText| == 0,
      |r.dictionaryText| > MAX_BYTES, Blank(r.sourceURL), !Blank(r.sourceURL) && !ValidSourceURL(r.sourceURL),
      Blank(r.sourceSHA256), !Blank(r.sourceSHA256) && !ValidSHA256(r.sourceSHA256),
      !Blank(r.sourceSHA256) && ValidSHA256(r.sourceSHA256) && !EqualFold(r.sourceSHA256, sha),
      !AllowedLicense(r.licenseID), Blank(r.licenseReference), Blank(r.upstreamVersion),
      !ValidRetrievedAt(env, r.retrievedAt), !Blank(r.intendedPackKey) && !PackKeys.ValidPackKey(r.intendedPackKey),
      |catalog.vendors| == 0, Blank(vendor.name), vendor.id == 0, |vendor.attributes| == 0,
      |vendor.attributes| > MAX_ATTRIBUTES, DictionaryBlockers(vendor) != [])
  }

  /** The kinds of blockers the failures lead to. */
  ghost predicate KindFree(kind: Blocker -> bool, f: Failures, many: nat, dictionary: seq<Blocker>) {
    && !(f.name && kind(VendorNameRequired)) && !(f.number && kind(PENRequired)) && !(f.empty && kind(TextRequired))
    && !(f.long && kind(TextTooLong)) && !(f.noURL && kind(SourceURLRequired)) && !(f.badURL && kind(SourceURLScheme))
    && !(f.noHash && kind(SHARequired)) && !(f.badHash && kind(SHAFormat)) && !(f.otherHash && kind(SHAMismatch))
    && !(f.license && kind(LicenseNotAllowed)) && !(f.reference && kind(LicenseReferenceRequired))
    && !(f.version && kind(VersionRequired)) && !(f.time && kind(RetrievedAtInvalid))
    && !(f.key && kind(PackKeyInvalid))
    && !(f.noVendor && kind(NoVendor)) && !(f.unmatched && kind(VendorUnmatched))
    && !(f.unnumbered && kind(VendorWithoutPEN)) && !(f.noAttributes && kind(NoAttributes))
    && !(f.tooMany && kind(TooManyAttributes(many))) && Clear(kind, dictionary)
  }

  /** One more possible blocker. */
  lemma {:induction false} Added(kind: Blocker -> bool, messages: seq<Blocker>, condition: bool, b: Blocker)
    returns (after: seq<Blocker>)
    ensures after == messages + When(condition, b)
    ensures Clear(kind, after) <==> Clear(kind, messages) && !(condition && kind(b))
  {
    after := messages + When(condition, b);
    ClearConcat(kind, messages, When(condition, b));
    ClearWhen(kind, condition, b);
  }

  function URLMessages(r: Request): seq<Blocker> {
    if Blank(r.sourceURL) then [SourceURLRequired] else When(!ValidSourceURL(r.sourceURL), SourceURLScheme)
  }

  function HashMessages(r: Request, sha: string): seq<Blocker> {
    if Blank(r.sourceSHA256) then [SHARequired]
    else if !ValidSHA256(r.sourceSHA256) then [SHAFormat]
    else When(!EqualFold(r.sourceSHA256, sha), SHAMismatch)
  }

  lemma {:induction false} URLFree(kind: Blocker -> bool, r: Request)
    ensures Clear(kind, URLMessages(r)) <==>
              && !(Blank(r.sourceURL) && kind(SourceURLRequired))
              && !(!Blank(r.sourceURL) && !ValidSourceURL(r.sourceURL) && kind(SourceURLScheme))
  {
    ClearWhen(kind, !ValidSourceURL(r.sourceURL), SourceURLScheme);
    assert [SourceURLRequired][0] == SourceURLRequired;
  }

  lemma {:induction false} HashFree(kind: Blocker -> bool, r: Request, sha: string)
    ensures Clear(kind, HashMessages(r, sha)) <==>
              && !(Blank(r.sourceSHA256) && kind(SHARequired))
              && !(!Blank(r.sourceSHA256) && !ValidSHA256(r.sourceSHA256) && kind(SHAFormat))
              && !(!Blank(r.sourceSHA256) && ValidSHA256(r.sourceSHA256) && !EqualFold(r.sourceSHA256, sha)
                   && kind(SHAMismatch))
  {
    ClearWhen(kind, !EqualFold(r.sourceSHA256, sha), SHAMismatch);
    assert [SHARequired][0] == SHARequired && [SHAFormat][0] == SHAFormat;
  }

  /** The messages about what was sent. */
  lemma {:induction false} SentFree(kind: Blocker -> bool, r: Request, sha: string) returns (m: seq<Blocker>)
    ensures m == When(Blank(r.vendorName), VendorNameRequired)
                 + When(r.pen == 0 || r.pen == PLACEHOLDER_PEN, PENRequired)
                 + When(|r.dictionaryText| == 0, TextRequired) + When(|r.dictionaryText| > MAX_BYTES, TextTooLong)
                 + URLMessages(r) + HashMessages(r, sha)
    ensures Clear(kind, m) <==>
              && !(Blank(r.vendorName) && kind(VendorNameRequired))
              && !((r.pen == 0 || r.pen == PLACEHOLDER_PEN) && kind(PENRequired))
              && !(|r.dictionaryText| == 0 && kind(TextRequired))
              && !(|r.dictionaryText| > MAX_BYTES && kind(TextTooLong))
              && Clear(kind, URLMessages(r)) && Clear(kind, HashMessages(r, sha))
  {
    m := When(Blank(r.vendorName), VendorNameRequired);
    ClearWhen(kind, Blank(r.vendorName), VendorNameRequired);
    m := Added(kind, m, r.pen == 0 || r.pen == PLACEHOLDER_PEN, PENRequired);
    m := Added(kind, m, |r.dictionaryText| == 0, TextRequired);
    m := Added(kind, m, |r.dictionaryText| > MAX_BYTES, TextTooLong);
    ClearConcat(kind, m, URLMessages(r));
    m := m + URLMessages(r);
    ClearConcat(kind, m, HashMessages(r, sha));
    m := m + HashMessages(r, sha);
  }

  /** The messages about the source, after others. */
  lemma {:induction false} SourceFree(kind: Blocker -> bool, before: seq<Blocker>, env: Environment, r: Request)
    returns (m: seq<Blocker>)
    ensures m == before + When(!AllowedLicense(r.licenseID), LicenseNotAllowed)
                 + When(Blank(r.licenseReference), LicenseReferenceRequired)
                 + When(Blank(r.upstreamVersion), VersionRequired)
                 + When(!ValidRetrievedAt(env, r.retrievedAt), RetrievedAtInvalid)
                 + When(!Blank(r.intendedPackKey) && !PackKeys.ValidPackKey(r.intendedPackKey), PackKeyInvalid)
    ensures Clear(kind, m) <==>
              && Clear(kind, before) && !(!AllowedLicense(r.licenseID) && kind(LicenseNotAllowed))
              && !(Blank(r.licenseReference) && kind(LicenseReferenceRequired))
              && !(Blank(r.upstreamVersion) && kind(VersionRequired))
              && !(!ValidRetrievedAt(env, r.retrievedAt) && kind(RetrievedAtInvalid))
              && !(!Blank(r.intendedPackKey) && !PackKeys.ValidPackKey(r.intendedPackKey) && kind(PackKeyInvalid))
  {
    m := Added(kind, before, !AllowedLicense(r.licenseID), LicenseNotAllowed);
    m := Added(kind, m, Blank(r.licenseReference), LicenseReferenceRequired);
    m := Added(kind, m, Blank(r.upstreamVersion), VersionRequired);
    m := Added(kind, m, !ValidRetrievedAt(env, r.retrievedAt), RetrievedAtInvalid);
    m := Added(kind, m, !Blank(r.intendedPackKey) && !PackKeys.ValidPackKey(r.intendedPackKey), PackKeyInvalid);
  }

  /** The messages about the vendor, after others. */
  lemma {:induction false} VendorFree(kind: Blocker -> bool, before: seq<Blocker>, catalog: Catalog, vendor: Vendor)
    returns (m: seq<Blocker>)
    ensures m == before + When(|catalog.vendors| == 0, NoVendor) + When(Blank(vendor.name), VendorUnmatched)
                 + When(vendor.id == 0, VendorWithoutPEN) + When(|vendor.attributes| == 0, NoAttributes)
                 + When(|vendor.attributes| > MAX_ATTRIBUTES, TooManyAttributes(|vendor.attributes|))
                 + DictionaryBlockers(vendor)
    ensures Clear(kind, m) <==>
              && Clear(kind, before) && !(|catalog.vendors| == 0 && kind(NoVendor))
              && !(Blank(vendor.name) && kind(VendorUnmatched)) && !(vendor.id == 0 && kind(VendorWithoutPEN))
              && !(|vendor.attributes| == 0 && kind(NoAttributes))
              && !(|vendor.attributes| > MAX_ATTRIBUTES && kind(TooManyAttributes(|vendor.attributes|)))
              && Clear(kind, DictionaryBlockers(vendor))
  {
    m := Added(kind, before, |catalog.vendors| == 0, NoVendor);
    m := Added(kind, m, Blank(vendor.name), VendorUnmatched);
    m := Added(kind, m, vendor.id == 0, VendorWithoutPEN);
    m := Added(kind, m, |vendor.attributes| == 0, NoAttributes);
    m := Added(kind, m, |vendor.attributes| > MAX_ATTRIBUTES, TooManyAttributes(|vendor.attributes|));
    ClearConcat(kind, m, DictionaryBlockers(vendor));
    m := m + DictionaryBlockers(vendor);
  }

  /** A request gets exactly the kinds of blockers that its failures lead to. */
  lemma {:induction false} RequestFree(kind: Blocker -> bool, env: Environment, r: Request, sha: string,
                                       catalog: Catalog, vendor: Vendor)
    ensures Clear(kind, RequestBlockers(env, r, sha, catalog, vendor)) <==>
              KindFree(kind, FailuresOf(env, r, sha, catalog, vendor), |vendor.attributes|, DictionaryBlockers(vendor))
  {
    URLFree(kind, r);
    HashFree(kind, r, sha);
    var a := SentFree(kind, r, sha);
    var b := SourceFree(kind, a, env, r);
    var c := VendorFree(kind, b, catalog, vendor);
    assert c == RequestMessages(env, r, sha, catalog, vendor);
    ClearDistinct(kind, c);
  }

  // ----- the four states

  lemma {:induction false} LicenseFree(f: Failures, many: nat, dictionary: seq<Blocker>)
    requires Clear(OfLicense, dictionary)
    ensures KindFree(OfLicense, f, many, dictionary) <==> !f.license && !f.reference
  {
  }

  lemma {:induction false} ProvenanceFree(f: Failures, many: nat, dictionary: seq<Blocker>)
    requires Clear(OfSource, dictionary)
    ensures KindFree(OfSource, f, many, dictionary) <==>
              !f.noURL && !f.badURL && !f.noHash && !f.badHash && !f.otherHash && !f.time
  {
  }

  lemma {:induction false} NumberFree(f: Failures, many: nat, dictionary: seq<Blocker>)
    requires Clear(OfNumber, dictionary)
    ensures KindFree(OfNumber, f, many, dictionary) <==> !f.number
  {
  }

  lemma {:induction false} AttributesFree(f: Failures, many: nat, dictionary: seq<Blocker>)
    requires Clear(OfAttributes, dictionary) <==> !f.dictionary
    ensures KindFree(OfAttributes, f, many, dictionary) <==> !f.noAttributes && !f.dictionary
  {
  }

  lemma {:induction false} WithOthers(kind: Blocker -> bool, asked: seq<Blocker>, pinned: bool, mismatched: bool,
                                      id: int)
    ensures Clear(kind, asked + When(pinned, InPinnedCorpus) + When(mismatched, PENMismatch(id))) <==>
              Clear(kind, asked) && !(pinned && kind(InPinnedCorpus)) && !(mismatched && kind(PENMismatch(id)))
  {
    var mid := Added(kind, asked, pinned, InPinnedCorpus);
    var all := Added(kind, mid, mismatched, PENMismatch(id));
  }

  /** The states in terms of the failures. */
  lemma {:induction false} StatesOf(env: Environment, r: Request, sha: string, catalog: Catalog, pinned: bool,
                                    vendor: Vendor)
    ensures var f := FailuresOf(env, r, sha, catalog, vendor);
            States(env, r, sha, pinned, vendor) == Provenance(
              if f.license || f.reference then Refused else Accepted,
              if f.noURL || f.badURL || f.noHash || f.badHash || f.otherHash || f.time then Refused else Verified,
              if f.number || pinned || Mismatched(vendor, r.pen) then Refused else Verified,
              if f.noAttributes || f.dictionary then Refused else Classified)
  {
  }

  /** The four provenance states of a report, by the blockers it lists: each is refused exactly when a
      blocker of its kind is there. */
  lemma {:induction false} StatesAgree(env: Environment, request: Request, report: Report)
    requires IsReport(env, request, report)
    ensures report.states == StatesBy(report.blockers)
  {
    var r := Normalize(request);
    var sha := env.sha256(Trim(r.dictionaryText));
    var catalog := ParseCatalog(env.read, r.sourceURL, r.dictionaryText);
    StatesClear(env, r, sha, catalog, SelectVendor(env, catalog, r), report.inPinnedCorpus, report.blockers);
  }

  ghost function StatesBy(blockers: seq<Blocker>): Provenance {
    Provenance(
      if Clear(OfLicense, blockers) then Accepted else Refused,
      if Clear(OfSource, blockers) then Verified else Refused,
      if Clear(OfNumber, blockers) then Verified else Refused,
      if Clear(OfAttributes, blockers) then Classified else Refused)
  }

  lemma {:induction false} StatesClear(env: Environment, r: Request, sha: string, catalog: Catalog, vendor: Vendor,
                                       pinned: bool, blockers: seq<Blocker>)
    requires blockers == RequestBlockers(env, r, sha, catalog, vendor) + When(pinned, InPinnedCorpus)
                         + When(Mismatched(vendor, r.pen), PENMismatch(vendor.id))
    ensures States(env, r, sha, pinned, vendor) == StatesBy(blockers)
  {
    var f, dictionary := FailuresOf(env, r, sha, catalog, vendor), DictionaryBlockers(vendor);
    var many, mismatched := |vendor.attributes|, Mismatched(vendor, r.pen);
    var asked := RequestBlockers(env, r, sha, catalog, vendor);
    StatesOf(env, r, sha, catalog, pinned, vendor);
    RequestFree(OfLicense, env, r, sha, catalog, vendor);
    RequestFree(OfSource, env, r, sha, catalog, vendor);
    RequestFree(OfNumber, env, r, sha, catalog, vendor);
    RequestFree(OfAttributes, env, r, sha, catalog, vendor);
    DictionaryClear(vendor);
    StatesFrom(f, many, dictionary, asked, pinned, mismatched, vendor.id, States(env, r, sha, pinned, vendor));
  }

  lemma {:induction false} StatesFrom(f: Failures, many: nat, dictionary: seq<Blocker>, asked: seq<Blocker>,
                                      pinned: bool, mismatched: bool, id: int, states: Provenance)
    requires Clear(OfLicense, dictionary) && Clear(OfSource, dictionary) && Clear(OfNumber, dictionary)
    requires Clear(OfAttributes, dictionary) <==> !f.dictionary
    requires Clear(OfLicense, asked) <==> KindFree(OfLicense, f, many, dictionary)
    requires Clear(OfSource, asked) <==> KindFree(OfSource, f, many, dictionary)
    requires Clear(OfNumber, asked) <==> KindFree(OfNumber, f, many, dictionary)
    requires Clear(OfAttributes, asked) <==> KindFree(OfAttributes, f, many, dictionary)
    requires states == Provenance(
               if f.license || f.reference then Refused else Accepted,
               if f.noURL || f.badURL || f.noHash || f.badHash || f.otherHash || f.time then Refused else Verified,
               if f.number || pinned || mismatched then Refused else Verified,
               if f.noAttributes || f.dictionary then Refused else Classified)
    ensures states == StatesBy(asked + When(pinned, InPinnedCorpus) + When(mismatched, PENMismatch(id)))
  {
    LicenseFree(f, many, dictionary);
    ProvenanceFree(f, many, dictionary);
    NumberFree(f, many, dictionary);
    AttributesFree(f, many, dictionary);
    WithOthers(OfLicense, asked, pinned, mismatched, id);
    WithOthers(OfSource, asked, pinned, mismatched, id);
    WithOthers(OfNumber, asked, pinned, mismatched, id);
    WithOthers(OfAttributes, asked, pinned, mismatched, id);
  }
}

/** The intake gates agree: for every request, having no blockers, being marked ready and passing the
    validator are the same thing, and a ready report yields a lossless, collision-free decoder table. */
module IntakeLaws {
  import opened Text
  import opened Sequences
  import opened Wrappers
  import opened Numbers
  import opened SemanticSets
  import opened Dictionary
  import opened ParserLaws
  import opened RegistryModel
  import opened RuntimeMappings
  import opened Intake
  import PackKeys
  import ReleaseKeys
  import C = Coverage
  import L = LongTail

  // ----- what the dictionary checks decide

  predicate Admissible(a: Attribute) {
    !Blank(a.name) && L.ValidType(a.kind) && a.number <= 255
  }

  /** Two attributes of one dictionary do not clash. */
  predicate Apart(a: Attribute, b: Attribute) {
    && Lower(Trim(a.name)) != Lower(Trim(b.name))
    && (a.number > 0 ==> a.number != b.number)
    && (!Blank(a.oid) ==> Trim(a.oid) != Trim(b.oid))
  }

  ghost predicate CleanDictionary(attributes: seq<Attribute>) {
    && (forall i :: 0 <= i < |attributes| ==> Admissible(attributes[i]))
    && (forall i, j :: 0 <= i < j < |attributes| ==> Apart(attributes[i], attributes[j]))
  }

  predicate Unseen(seen: Seen, a: Attribute) {
    && Lower(Trim(a.name)) !in seen.names
    && (a.number > 0 ==> a.number !in seen.numbers)
    && (!Blank(a.oid) ==> Trim(a.oid) !in seen.oids)
  }

  lemma {:induction false} AttributeBlockersEmpty(seen: Seen, a: Attribute)
    ensures AttributeBlockers(seen, a) == [] <==> Admissible(a) && Unseen(seen, a)
  {
  }

  lemma {:induction false} UnseenAfterNote(seen: Seen, a: Attribute, b: Attribute)
    requires Admissible(a)
    ensures Unseen(Note(seen, a), b) <==> Unseen(seen, b) && Apart(a, b)
  {
  }

  lemma {:induction false} MessagesEmpty(seen: Seen, attributes: seq<Attribute>)
    ensures DictionaryMessages(seen, attributes) == []
       <==> CleanDictionary(attributes) && forall i :: 0 <= i < |attributes| ==> Unseen(seen, attributes[i])
    decreases |attributes|
  {
    if attributes != [] {
      var a, rest := attributes[0], attributes[1..];
      AttributeBlockersEmpty(seen, a);
      MessagesEmpty(Note(seen, a), rest);
      if Admissible(a) {
        forall i | 0 <= i < |rest| ensures Unseen(Note(seen, a), rest[i]) <==>
          Unseen(seen, rest[i]) && Apart(a, rest[i]) {
          UnseenAfterNote(seen, a, rest[i]);
        }
      }
      CleanCons(attributes);
      assert forall i :: 0 <= i < |rest| ==> rest[i] == attributes[i + 1];
      assert forall i :: 1 <= i < |attributes| ==> attributes[i] == rest[i - 1];
    }
  }

  lemma {:induction false} CleanCons(attributes: seq<Attribute>)
    requires attributes != []
    ensures CleanDictionary(attributes)
       <==> Admissible(attributes[0]) && CleanDictionary(attributes[1..]) && forall i :: 0 <= i < |attributes[1..]| ==>
         Apart(attributes[0], attributes[1..][i])
  {
    var rest := attributes[1..];
    assert forall i :: 0 <= i < |rest| ==> rest[i] == attributes[i + 1];
    if Admissible(attributes[0]) && CleanDictionary(rest) && forall i :: 0 <= i < |rest| ==>
      Apart(attributes[0], rest[i]) {
      forall i | 0 <= i < |attributes| ensures Admissible(attributes[i]) {
        assert i > 0 ==> attributes[i] == rest[i - 1];
      }
      forall i, j | 0 <= i < j < |attributes| ensures Apart(attributes[i], attributes[j]) {
        assert attributes[j] == rest[j - 1];
        assert i > 0 ==> attributes[i] == rest[i - 1];
      }
    }
    if CleanDictionary(attributes) {
      forall i | 0 <= i < |rest| ensures Admissible(rest[i]) && Apart(attributes[0], rest[i]) {
        assert rest[i] == attributes[i + 1];
      }
      forall i, j | 0 <= i < j < |rest| ensures Apart(rest[i], rest[j]) {
        assert rest[i] == attributes[i + 1] && rest[j] == attributes[j + 1];
      }
    }
  }

  lemma {:induction false} DistinctEmpty<T, K>(key: T -> K, xs: seq<T>)
    ensures Distinct(key, {}, xs) == [] <==> xs == []
  {
  }

  /** The dictionary has no blockers exactly when every attribute is named, typed and within 1..255 or an
      OID, and no two attributes share a name, a number or an OID. */
  lemma {:induction false} DictionaryBlockersExactly(vendor: Vendor)
    ensures DictionaryBlockers(vendor) == [] <==> CleanDictionary(vendor.attributes)
  {
    MessagesEmpty(NOTHING_SEEN, vendor.attributes);
    DistinctEmpty(SameBlocker, DictionaryMessages(NOTHING_SEEN, vendor.attributes));
  }

  // ----- OIDs and record IDs

  lemma {:induction false} SplitChars(s: string, sep: char, c: char)
    requires c in s && c != sep
    ensures exists part <- Split(s, sep) :: c in part
  {
    var r := Split(s[1..], sep);
    if s[0] == c {
      assert ([s[0]] + r[0]) in Split(s, sep) by {
        assert Split(s, sep)[0] == [s[0]] + r[0];
      }
    } else {
      assert c in s[1..];
      SplitChars(s[1..], sep, c);
      var part :| part in r && c in part;
      var k :| 0 <= k < |r| && r[k] == part;
      if s[0] == sep {
        assert Split(s, sep)[k + 1] == part;
      } else if k == 0 {
        assert Split(s, sep)[0] == [s[0]] + part && c in [s[0]] + part;
      } else {
        assert Split(s, sep)[k] == part;
      }
    }
  }

  predicate IsOIDChar(c: char) {
    IsDigit(c) || c == '.'
  }

  /** A trimmed valid OID has a dot and otherwise only digits. */
  lemma {:induction false} OIDShape(oid: string)
    requires ValidOID(oid) && CleanEnds(IsSpace, oid)
    ensures '.' in oid && forall c <- oid :: IsOIDChar(c)
  {
    StripFixed(IsSpace, oid);
    var partial := oid != "" && oid[0] == '.';
    var body := if partial then oid[1..] else oid;
    if !partial && '.' !in oid {
      SplitPlain(oid, '.');
    }
    forall c | c in oid ensures IsOIDChar(c) {
      if c != '.' {
        assert c in body;
        SplitChars(body, '.', c);
        var part :| part in Split(body, '.') && c in part;
        assert AllDigits(part);
      }
    }
  }

  /** The distinguishing middle of a record ID. */
  function Middle(number: nat, oid: string): string {
    if number > 0 then Decimal(number) else Lower(oid)
  }

  lemma {:induction false} MiddleShape(number: nat, oid: string)
    requires number > 0 || (ValidOID(oid) && CleanEnds(IsSpace, oid))
    ensures ':' !in Middle(number, oid)
    ensures number == 0 ==> Lower(oid) == oid && '.' in Middle(number, oid)
    ensures number > 0 ==> '.' !in Middle(number, oid)
  {
    if number > 0 {
      DecimalDigits(number);
    } else {
      OIDShape(oid);
      forall i | 0 <= i < |oid| ensures LowerChar(oid[i]) == oid[i] && oid[i] != ':' {
        assert oid[i] in oid;
      }
      assert Lower(oid) == oid;
    }
  }

  lemma {:induction false} MiddlesDiffer(n1: nat, o1: string, n2: nat, o2: string)
    requires n1 > 0 || (ValidOID(o1) && CleanEnds(IsSpace, o1))
    requires n2 > 0 || (ValidOID(o2) && CleanEnds(IsSpace, o2))
    requires Middle(n1, o1) == Middle(n2, o2)
    ensures n1 == n2 && (n1 == 0 ==> o1 == o2)
  {
    MiddleShape(n1, o1);
    MiddleShape(n2, o2);
    if n1 > 0 && n2 > 0 {
      DecimalInjective(n1, n2);
    }
  }

  lemma {:induction false} RecordIDSplit(pen: nat, number: nat, oid: string, attribute: string)
    ensures RecordID(pen, number, oid, attribute) == ("nas-0073:" + Decimal(pen) + ":")
            + (Middle(number, oid) + ":" + Lower(attribute))
  {
  }

  /** Record IDs of one vendor tell apart any two attributes with different numbers or OIDs. */
  lemma {:induction false} RecordIDsDiffer(pen: nat, n1: nat, o1: string, a1: string, n2: nat, o2: string, a2: string)
    requires n1 > 0 || (ValidOID(o1) && CleanEnds(IsSpace, o1))
    requires n2 > 0 || (ValidOID(o2) && CleanEnds(IsSpace, o2))
    requires n1 != n2 || (n1 == 0 && o1 != o2)
    ensures RecordID(pen, n1, o1, a1) != RecordID(pen, n2, o2, a2)
  {
    var prefix := "nas-0073:" + Decimal(pen) + ":";
    var t1, t2 := Middle(n1, o1) + ":" + Lower(a1), Middle(n2, o2) + ":" + Lower(a2);
    RecordIDSplit(pen, n1, o1, a1);
    RecordIDSplit(pen, n2, o2, a2);
    MiddleShape(n1, o1);
    MiddleShape(n2, o2);
    if Middle(n1, o1) == Middle(n2, o2) {
      MiddlesDiffer(n1, o1, n2, o2);
    }
    if t1 == t2 {
      CutAt(Middle(n1, o1), Lower(a1), Middle(n2, o2), Lower(a2), ':');
    }
    assert (prefix + t1)[|prefix|..] == t1 && (prefix + t2)[|prefix|..] == t2;
  }

  // ----- what the request checks decide

  /** Everything a request needs, in one place. */
  ghost predicate CleanRequest(env: Environment, r: Request, sha: string, catalog: Catalog, vendor: Vendor) {
    && !Blank(r.vendorName) && r.pen != 0 && r.pen != PLACEHOLDER_PEN && 0 < |r.dictionaryText| <= MAX_BYTES
    && !Blank(r.sourceURL) && ValidSourceURL(r.sourceURL)
    && !Blank(r.sourceSHA256) && ValidSHA256(r.sourceSHA256) && EqualFold(r.sourceSHA256, sha)
    && AllowedLicense(r.licenseID) && !Blank(r.licenseReference) && !Blank(r.upstreamVersion)
    && ValidRetrievedAt(env, r.retrievedAt)
    && (Blank(r.intendedPackKey) || PackKeys.ValidPackKey(r.intendedPackKey))
    && catalog.vendors != [] && !Blank(vendor.name) && vendor.id != 0
    && 0 < |vendor.attributes| <= MAX_ATTRIBUTES && CleanDictionary(vendor.attributes)
  }

  lemma {:induction false} RequestBlockersExactly(env: Environment, r: Request, sha: string, catalog: Catalog,
                                                  vendor: Vendor)
    ensures RequestBlockers(env, r, sha, catalog, vendor) == [] <==> CleanRequest(env, r, sha, catalog, vendor)
  {
    DistinctEmpty(SameBlocker, RequestMessages(env, r, sha, catalog, vendor));
    DictionaryBlockersExactly(vendor);
    assert |RequestMessages(env, r, sha, catalog, vendor)| == 0 <==>
           RequestMessages(env, r, sha, catalog, vendor) == [];
  }

  // ----- clean attributes give acceptable records

  lemma {:induction false} StartsVisible(s: string, prefix: string)
    requires prefix <= s && prefix != "" && !IsSpace(prefix[0])
    ensures !Blank(s)
  {
    BlankIsAllSpace(s);
    assert s[0] == prefix[0];
  }

  lemma {:induction false} RecordIDIsText(pen: nat, number: nat, oid: string, attribute: string)
    ensures !Blank(RecordID(pen, number, oid, attribute))
  {
    StartsVisible(RecordID(pen, number, oid, attribute), "nas-0073:");
  }

  lemma {:induction false} WireKeyIsText(pen: nat, number: nat, oid: string)
    ensures !Blank(WireKey(pen, number)) && !Blank("vsa:" + Decimal(pen) + ":" + oid)
  {
    StartsVisible(WireKey(pen, number), "vsa:");
    StartsVisible("vsa:" + Decimal(pen) + ":" + oid, "vsa:");
  }

  lemma {:induction false} CleanEntry(env: Environment, a: Attribute, canonical: string, pen: nat, packKey: string)
    requires Admissible(a) && NumberOrOID(a)
    ensures var e := IntakeEntry(env, a, canonical, pen, packKey);
            && e.number == a.number && e.oid == a.oid && e.pen == pen && WireReady(e)
  {
    CleanBareEntry(env, a, canonical, pen, packKey);
    CapableKeeps(BareEntry(env, a, canonical, pen, packKey));
  }

  lemma {:induction false} CapableKeeps(e: Entry)
    ensures var c := Capable(e);
            c.number == e.number && c.oid == e.oid && c.pen == e.pen && (WireReady(c) <==> WireReady(e))
  {
  }

  lemma {:induction false} CleanBareEntry(env: Environment, a: Attribute, canonical: string, pen: nat, packKey: string)
    requires Admissible(a) && NumberOrOID(a)
    ensures var e := BareEntry(env, a, canonical, pen, packKey);
            && e.number == a.number && e.oid == a.oid && e.pen == pen
            && WireReady(e)
  {
    FoldedTexts(a.kind);
    TrimTrim(a.kind);
    LowerTrim(a.kind);
    WireKeyIsText(pen, ToUint32(a.number), Trim(a.oid));
    StripFixed(IsSpace, a.oid);
    if a.number == 0 {
      OIDShape(a.oid);
    }
  }

  lemma {:induction false} ClassifiedRecord(e: Entry, semantic: string)
    requires First(semantic) != ""
    ensures |L.Directions(e, semantic)| > 0
    ensures 1 <= e.number <= 255 ==>
            !Blank(L.DecoderFor(e, semantic).kind) && !Blank(L.DecoderFor(e, semantic).semantic)
  {
    L.DirectionsHaveInbound(e, semantic);
  }

  ghost predicate WireReady(e: Entry) {
    L.ValidType(e.wireType) && !Blank(e.wireType) && !Blank(e.wireKey) && (e.number > 0 || !Blank(e.oid))
  }

  lemma {:induction false} RecordWithReady(e: Entry, semantic: string, enumerated: nat, directions: seq<string>,
                                           decode: Decoder, class_: string,
                        processing: string, policy: string, storage: string)
    requires WireReady(e) && |directions| > 0 && !Blank(processing) && !Blank(policy) && !Blank(storage)
    requires 1 <= e.number <= 255 ==> !Blank(decode.kind) && !Blank(decode.semantic)
    ensures GoodRecord(RecordWith(e, semantic, enumerated, directions, decode, class_, processing, policy, storage))
  {
    RecordIDIsText(e.pen, e.number, e.oid, e.attribute);
  }

  /** A classified entry with wire metadata makes an acceptable record. */
  lemma {:induction false} MadeRecord(e: Entry, semantic: string, enumerated: nat)
    requires WireReady(e) && First(semantic) != ""
    ensures GoodRecord(MakeRecord(e, semantic, enumerated))
  {
    var classified := e.(semantic := semantic);
    var directed := classified.(directions := L.Directions(classified, semantic));
    ClassifiedRecord(classified, semantic);
    ClassifiedRecord(directed, semantic);
    var class_ := L.ImplementationClass(directed, semantic);
    var processing, policy := L.PacketProcessing(directed, class_), L.PolicyState(semantic, class_);
    var storage := L.StorageState(class_);
    L.VisibleIsText(processing);
    L.VisibleIsText(policy);
    L.VisibleIsText(storage);
    RecordWithReady(e, semantic, enumerated, directed.directions, L.DecoderFor(directed, semantic), class_, processing,
                    policy, storage);
  }

  /** The classifier gives every entry a primary semantic. */
  ghost predicate Classifies(env: Environment) {
    forall e :: First(env.semantic(e)) != ""
  }

  /** A clean attribute becomes a ready, acceptable record that keeps its number and OID. */
  lemma {:induction false} CleanRecord(env: Environment, a: Attribute, canonical: string, pen: nat, packKey: string)
    requires Admissible(a) && NumberOrOID(a) && Classifies(env)
    ensures var r := BuildRecord(env, a, canonical, pen, packKey);
            && GoodRecord(r) && r.number == a.number && r.oid == a.oid && r.pen == pen
            && r.id == RecordID(pen, a.number, a.oid, r.attribute)
  {
    var e := IntakeEntry(env, a, canonical, pen, packKey);
    CleanEntry(env, a, canonical, pen, packKey);
    MadeRecord(e, env.semantic(e), |a.values|);
  }

  // ----- all records of a clean dictionary

  lemma {:induction false} RecordOrder()
    ensures TotalPreorder(RecordNotAfter)
  {
    forall x, y ensures RecordNotAfter(x, y) || RecordNotAfter(y, x) {
      if Less(x.oid, y.oid) {
        LessAsymmetric(x.oid, y.oid);
      }
      if Less(x.attribute, y.attribute) {
        LessAsymmetric(x.attribute, y.attribute);
      }
    }
    forall x, y, z | RecordNotAfter(x, y) && RecordNotAfter(y, z) ensures RecordNotAfter(x, z) {
      NotLessTransitive(x.oid, y.oid, z.oid);
      NotLessTransitive(x.attribute, y.attribute, z.attribute);
      OIDTies(x, y, z);
    }
  }

  /** Equal OIDs in the middle of a sorted chain. */
  lemma {:induction false} OIDTies(x: Record, y: Record, z: Record)
    ensures !Less(y.oid, x.oid) && !Less(z.oid, y.oid) && x.oid == z.oid ==> x.oid == y.oid
  {
    LessTotal(x.oid, y.oid);
    LessTotal(y.oid, z.oid);
  }

  predicate GoodRecord(r: Record) {
    AcceptableRecord(r) && SoftwareReady(r) && (Decodable(r) ==> !Blank(r.decode.semantic))
  }

  function NumberOf(r: Record): nat {
    r.number
  }

  /** A record's number when it fits one octet, and its ID otherwise. */
  function OctetKey(r: Record): (nat, string) {
    if Decodable(r) then (r.number, "") else (0, r.id)
  }

  ghost predicate GoodRecords(rs: seq<Record>) {
    && (forall i :: 0 <= i < |rs| ==> GoodRecord(rs[i]))
    && UniqueKeys(IDOf, rs)
    && UniqueKeys(OctetKey, rs)
  }

  lemma {:induction false} DecodableNumbersDiffer(rs: seq<Record>)
    requires UniqueKeys(OctetKey, rs)
    ensures UniqueKeys(NumberOf, Filter(Decodable, rs))
  {
    forall i, j | 0 <= i < j < |rs| && Decodable(rs[i]) && Decodable(rs[j]) ensures NumberOf(rs[i]) != NumberOf(rs[j]) {
      assert OctetKey(rs[i]) != OctetKey(rs[j]);
    }
    FilterUnique(NumberOf, Decodable, rs);
  }

  ghost predicate Identified(attributes: seq<Attribute>) {
    forall i :: 0 <= i < |attributes| ==> NumberOrOID(attributes[i])
  }

  /** What a record takes from its attribute. */
  ghost predicate Reflects(a: Attribute, r: Record, pen: nat) {
    GoodRecord(r) && r.number == a.number && r.oid == a.oid && r.id == RecordID(pen, a.number, a.oid, r.attribute)
  }

  lemma {:induction false} ReflectedApart(a: Attribute, b: Attribute, ra: Record, rb: Record, pen: nat)
    requires Reflects(a, ra, pen) && Reflects(b, rb, pen) && NumberOrOID(a) && NumberOrOID(b) && Apart(a, b)
    ensures ra.id != rb.id && (ra.number > 0 ==> ra.number != rb.number)
  {
    if a.number == 0 && b.number == 0 {
      StripFixed(IsSpace, a.oid);
      StripFixed(IsSpace, b.oid);
      OIDShape(a.oid);
    }
    RecordIDsDiffer(pen, a.number, a.oid, ra.attribute, b.number, b.oid, rb.attribute);
  }

  lemma {:induction false} BuiltRecordsGood(attributes: seq<Attribute>, built: seq<Record>, pen: nat)
    requires CleanDictionary(attributes) && Identified(attributes) && |built| == |attributes|
    requires forall i :: 0 <= i < |built| ==> Reflects(attributes[i], built[i], pen)
    ensures GoodRecords(built)
  {
    forall i, j | 0 <= i < j < |built| ensures IDOf(built[i]) != IDOf(built[j])
      && (built[i].number > 0 ==> built[i].number != built[j].number) {
      ReflectedApart(attributes[i], attributes[j], built[i], built[j], pen);
    }
  }

  lemma {:induction false} SortedRecordsGood(built: seq<Record>)
    requires GoodRecords(built)
    ensures var rs := StableSort(RecordNotAfter, built); GoodRecords(rs) && |rs| == |built|
  {
    var rs := StableSort(RecordNotAfter, built);
    RecordOrder();
    StableSortFacts(RecordNotAfter, built);
    forall i | 0 <= i < |rs| ensures GoodRecord(rs[i]) {
      assert rs[i] in multiset(built);
    }
    UniqueKeysPermute(IDOf, built, rs);
    UniqueKeysPermute(OctetKey, built, rs);
  }

  /** All records of a clean dictionary are good, with distinct IDs and distinct one-octet numbers. */
  lemma {:induction false} CleanRecords(env: Environment, attributes: seq<Attribute>, canonical: string, pen: nat,
                                        packKey: string)
    requires CleanDictionary(attributes) && Identified(attributes) && Classifies(env)
    ensures var rs := Records(env, attributes, canonical, pen, packKey); GoodRecords(rs) && |rs| == |attributes|
  {
    var built := RecordsOf(env, attributes, canonical, pen, packKey);
    forall i | 0 <= i < |built| ensures Reflects(attributes[i], built[i], pen) {
      CleanRecord(env, attributes[i], canonical, pen, packKey);
    }
    BuiltRecordsGood(attributes, built, pen);
    SortedRecordsGood(built);
  }

  /** The summary of good records: nothing blocked, everything ready. */
  lemma {:induction false} GoodSummary(s: Summary, rs: seq<Record>, blockers: nat)
    requires Summarizes(s, rs, blockers) && GoodRecords(rs)
    ensures s.blocked == 0 && s.ready == s.readyForExternal == s.externalRequired == s.attributeCount == |rs|
  {
    CountAll(SoftwareReady, rs);
    CountAll(ReadyForExternal, rs);
    CountAll(ExternalRequired, rs);
  }

  /** Conservation: every record is decodable or metadata only, native or passed through, ready or blocked. */
  lemma {:induction false} SummaryConserves(s: Summary, rs: seq<Record>, blockers: nat)
    requires Summarizes(s, rs, blockers)
    ensures s.runtimeDecodable + s.metadataOnly == s.attributeCount
    ensures s.native + s.passthrough == s.attributeCount
    ensures s.ready + s.blocked == s.attributeCount
    ensures s.runtimeDecodable == |IntakeMappings(rs)|
  {
    CountIsFilter(Decodable, rs);
  }

  // ----- the gates

  /** What the intake may rely on: hashes are not blank, every entry gets a primary semantic, and a name
      does not normalise to nothing. */
  ghost predicate Proper(env: Environment) {
    && !Blank(env.registrySHA256)
    && (forall rs :: !Blank(env.fingerprint(rs))) && Classifies(env)
    && (forall v :: !Blank(v) ==> !Blank(env.names.vendor(v)))
  }

  lemma {:induction false} VendorByPENFrom(vendors: seq<Vendor>, pen: nat)
    ensures VendorByPEN(vendors, pen).Some? ==> VendorByPEN(vendors, pen).value in vendors
  {
    if vendors != [] {
      VendorByPENFrom(vendors[1..], pen);
    }
  }

  /** The selected vendor comes from the parsed catalog, so its attributes carry a number or an OID. */
  lemma {:induction false} SelectedIsIdentified(env: Environment, source: string, text: string, r: Request)
    ensures Identified(SelectVendor(env, ParseCatalog(env.read, source, text), r).attributes)
  {
    var catalog := ParseCatalog(env.read, source, text);
    var vendor := SelectVendor(env, catalog, r);
    VendorByPENFrom(catalog.vendors, r.pen);
    CatalogWellFormed(env.read, source, text);
    assert vendor == NO_VENDOR || vendor in catalog.vendors;
    if vendor in catalog.vendors {
      var v :| 0 <= v < |catalog.vendors| && catalog.vendors[v] == vendor;
      assert forall a :: 0 <= a < |vendor.attributes| ==> NumberOrOID(catalog.vendors[v].attributes[a]);
    }
  }

  lemma {:induction false} NoBlockers(a: seq<Blocker>, b: seq<Blocker>, c: seq<Blocker>)
    ensures a + b + c == [] <==> a == [] && b == [] && c == []
  {
    assert |a + b + c| == |a| + |b| + |c|;
  }

  lemma {:induction false} FoldedHash(r: Request, sha: string)
    requires !Blank(r.sourceSHA256) && EqualFold(r.sourceSHA256, sha)
    ensures !Blank(Lower(r.sourceSHA256)) && !Blank(sha) && EqualFold(Lower(r.sourceSHA256), sha)
  {
    LowerTrim(r.sourceSHA256);
    LowerTrim(sha);
    LowerLower(r.sourceSHA256);
  }

  /** The header of a report without blockers, from what the blockers rule out. */
  lemma {:induction false} ReadyHeader(env: Environment, r: Request, sha: string, canonical: string, catalog: Catalog,
                                       vendor: Vendor, report: Report)
    requires report.format == FORMAT && report.registrySHA256 == env.registrySHA256 && !Blank(env.registrySHA256)
             && !Blank(report.summary.fingerprint)
    requires report.status == Ready && report.canonicalName == canonical && !Blank(canonical)
    requires report.pen == r.pen && report.sourceURL == r.sourceURL && report.sourceSHA256 == Lower(r.sourceSHA256)
             && report.computedSHA256 == sha
    requires !report.inPinnedCorpus && report.outOfCorpus && report.states == States(env, r, sha, false, vendor)
    requires CleanRequest(env, r, sha, catalog, vendor) && !Mismatched(vendor, r.pen)
    requires 0 < report.summary.attributeCount == |vendor.attributes|
    requires report.summary.blocked == 0
    requires report.summary.ready == report.summary.readyForExternal == report.summary.externalRequired
             == report.summary.attributeCount
    ensures AcceptableHeader(report)
  {
    FoldedHash(r, sha);
    DictionaryBlockersExactly(vendor);
    ReleaseKeys.ProfileIsText();
  }

  ghost function ParsedFor(env: Environment, request: Request): Catalog {
    ParseCatalog(env.read, Normalize(request).sourceURL, Normalize(request).dictionaryText)
  }

  /** The dictionary vendor a request selects, and its canonical name. */
  ghost function Selected(env: Environment, request: Request): Vendor {
    SelectVendor(env, ParsedFor(env, request), Normalize(request))
  }

  ghost function CanonicalName(env: Environment, request: Request): string {
    env.names.vendor(L.FirstNonEmpty(Selected(env, request).name, Normalize(request).vendorName))
  }

  /** Without blockers, the request is clean, new to the corpus and agrees with its dictionary. */
  lemma {:induction false} ReadyRequest(env: Environment, request: Request, report: Report)
    requires IsReport(env, request, report) && report.blockers == []
    ensures var r, vendor := Normalize(request), Selected(env, request);
            && CleanRequest(env, r, env.sha256(Trim(r.dictionaryText)), ParsedFor(env, request), vendor)
            && !env.inPinnedCorpus(CanonicalName(env, request), r.pen) && !Mismatched(vendor, r.pen)
            && report.canonicalName == CanonicalName(env, request)
            && report.packKey == PackKeys.PackKey(r.intendedPackKey, report.canonicalName)
  {
    var r := Normalize(request);
    var sha, catalog, vendor := env.sha256(Trim(r.dictionaryText)), ParsedFor(env, request), Selected(env, request);
    var pinned := env.inPinnedCorpus(CanonicalName(env, request), r.pen);
    NoBlockers(RequestBlockers(env, r, sha, catalog, vendor), When(pinned, InPinnedCorpus),
               When(Mismatched(vendor, r.pen), PENMismatch(vendor.id)));
    RequestBlockersExactly(env, r, sha, catalog, vendor);
  }

  /** Without blockers, the records are good and the header passes. */
  lemma {:induction false} ReadyReport(env: Environment, request: Request, report: Report)
    requires Proper(env) && IsReport(env, request, report) && report.blockers == []
    ensures GoodRecords(report.records) && AcceptableHeader(report)
  {
    var r, vendor := Normalize(request), Selected(env, request);
    var sha, canonical := env.sha256(Trim(r.dictionaryText)), CanonicalName(env, request);
    ReadyRequest(env, request, report);
    SelectedIsIdentified(env, r.sourceURL, r.dictionaryText, r);
    CleanRecords(env, vendor.attributes, canonical, r.pen, report.packKey);
    GoodSummary(report.summary, report.records, 0);
    L.VisibleIsText(L.FirstNonEmpty(vendor.name, r.vendorName));
    ReadyHeader(env, r, sha, canonical, ParsedFor(env, request), vendor, report);
  }

  /** The pack key of a ready report fits its pattern exactly when a key was requested or the slug of the
      vendor has at most 54 characters; the validator accepts the report either way. */
  lemma {:induction false} ReadyPackKey(env: Environment, request: Request, report: Report)
    requires IsReport(env, request, report) && report.blockers == []
    ensures PackKeys.ValidPackKey(report.packKey) <==>
            !Blank(request.intendedPackKey) || |PackKeys.Slug(report.canonicalName)| <= PackKeys.SLUG_LIMIT - 1
  {
    ReadyRequest(env, request, report);
    TrimTrim(request.intendedPackKey);
    PackKeys.RequestedKeyExactly(Normalize(request).intendedPackKey, report.canonicalName);
  }

  /** The gates agree: no blockers, status ready and an accepting validator are the same, for every
      request and every environment. */
  lemma {:induction false} GatesAgree(env: Environment, request: Request, report: Report)
    requires Proper(env) && IsReport(env, request, report)
    ensures report.blockers == [] <==> report.status == Ready
    ensures report.status == Ready <==> Acceptable(report)
  {
    StatusMeans(report.blockers, report.summary);
    if report.blockers == [] {
      ReadyReport(env, request, report);
      GoodIsAcceptable(report);
    }
  }

  lemma {:induction false} StatusMeans(blockers: seq<Blocker>, s: Summary)
    ensures Status(blockers, s) == Ready ==> blockers == []
  {
  }

  lemma {:induction false} GoodIsAcceptable(report: Report)
    requires GoodRecords(report.records) && AcceptableHeader(report)
    ensures Acceptable(report)
  {
    forall i | 0 <= i < |report.records| ensures AcceptableRecord(report.records[i]) {
      assert GoodRecord(report.records[i]);
    }
  }

  function OctetOf(m: RuntimeMapping): nat {
    m.octet
  }

  /** A decoder table of some records: pairwise distinct one-octet types that are the attribute numbers
      without loss, each with a kind and a semantic. */
  ghost predicate LosslessTable(kept: seq<Record>, ms: seq<RuntimeMapping>) {
    && |ms| == |kept| && UniqueKeys(OctetOf, ms)
    && forall i :: 0 <= i < |ms| ==> Lossless(kept[i], ms[i])
  }

  ghost predicate Lossless(r: Record, m: RuntimeMapping) {
    m.octet == r.number && 1 <= m.octet <= 255 && !Blank(m.kind) && !Blank(m.semantic)
  }

  /** A ready report's decoder table has as many mappings as decodable attributes, and loses nothing. */
  lemma {:induction false} ReadyMappings(env: Environment, request: Request, report: Report)
    requires Proper(env) && IsReport(env, request, report) && report.status == Ready
    ensures var ms := IntakeMappings(report.records);
            |ms| == report.summary.runtimeDecodable && LosslessTable(Filter(Decodable, report.records), ms)
  {
    GatesAgree(env, request, report);
    ReadyReport(env, request, report);
    DecodableCount(env, request, report);
    MappingsOfGood(report.records);
  }

  lemma {:induction false} DecodableCount(env: Environment, request: Request, report: Report)
    requires IsReport(env, request, report) && report.blockers == []
    ensures report.summary.runtimeDecodable == |Filter(Decodable, report.records)|
  {
    SummaryConserves(report.summary, report.records, 0);
  }

  lemma {:induction false} MappingsOfGood(rs: seq<Record>)
    requires GoodRecords(rs)
    ensures LosslessTable(Filter(Decodable, rs), IntakeMappings(rs))
  {
    var ms, kept := IntakeMappings(rs), Filter(Decodable, rs);
    DecodableNumbersDiffer(rs);
    forall i | 0 <= i < |ms| ensures Lossless(kept[i], ms[i]) {
      assert kept[i] in kept;
      FilterMember(Decodable, rs, kept[i]);
      var k :| 0 <= k < |rs| && rs[k] == kept[i];
      assert GoodRecord(rs[k]);
      L.VisibleIsText(L.FirstNonEmpty(kept[i].decode.semantic, First(kept[i].semantic)));
    }
    forall i, j | 0 <= i < j < |ms| ensures OctetOf(ms[i]) != OctetOf(ms[j]) {
      assert NumberOf(kept[i]) != NumberOf(kept[j]);
    }
  }

  // ----- which vendor an intake is about

  predicate HasNumber(vendor: Vendor, pen: nat) {
    ToUint32(vendor.id) == pen
  }

  /** Vendor `i` is the first one with the number. */
  ghost predicate FirstNumbered(vendors: seq<Vendor>, pen: nat, i: nat) {
    i < |vendors| && HasNumber(vendors[i], pen) && forall j :: 0 <= j < i ==> !HasNumber(vendors[j], pen)
  }

  lemma {:induction false} VendorByPENExactly(vendors: seq<Vendor>, pen: nat)
    ensures VendorByPEN(vendors, pen).None? <==> forall v <- vendors :: !HasNumber(v, pen)
    ensures forall i: nat :: FirstNumbered(vendors, pen, i) ==> VendorByPEN(vendors, pen) == Some(vendors[i])
  {
    if vendors != [] {
      VendorByPENExactly(vendors[1..], pen);
      assert VendorByPEN(vendors, pen).None? <==> !HasNumber(vendors[0], pen) && VendorByPEN(vendors[1..], pen).None?;
      assert forall v :: v in vendors <==> v == vendors[0] || v in vendors[1..];
      forall i: nat | FirstNumbered(vendors, pen, i) ensures VendorByPEN(vendors, pen) == Some(vendors[i]) {
        if i > 0 {
          assert !HasNumber(vendors[0], pen);
          assert FirstNumbered(vendors[1..], pen, i - 1) by {
            forall j | 0 <= j < i - 1 ensures !HasNumber(vendors[1..][j], pen) {
              assert vendors[1..][j] == vendors[j + 1];
            }
          }
        }
      }
    }
  }

  /** A vendor of the requested name comes first, then one with the requested number, then the only one. */
  lemma {:induction false} SelectsExactly(env: Environment, catalog: Catalog, r: Request)
    ensures var vendors, chosen := catalog.vendors, SelectVendor(env, catalog, r);
            && (forall i: nat :: C.FirstNamed(env.names, vendors, r.vendorName, i) ==> chosen == vendors[i])
            && ((forall v <- vendors :: !C.IsNamed(env.names, v, r.vendorName)) ==>
                 && (r.pen > 0 ==> forall i: nat :: FirstNumbered(vendors, r.pen, i) ==> chosen == vendors[i])
                 && (r.pen == 0 || (forall v <- vendors :: !HasNumber(v, r.pen)) ==>
                      chosen == if |vendors| == 1 then vendors[0] else NO_VENDOR))
  {
    C.VendorByNameExactly(env.names, catalog.vendors, r.vendorName);
    VendorByPENExactly(catalog.vendors, r.pen);
    forall i: nat | FirstNumbered(catalog.vendors, r.pen, i) ensures catalog.vendors[i] in catalog.vendors {
    }
  }
}

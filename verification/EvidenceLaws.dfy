/** What the compatibility evidence report means: its validator, its counts and every "ready" are tied
    back to plain searches of the catalog and the registry. */
module EvidenceLaws {
  import opened Text
  import opened Sequences
  import opened Wrappers
  import opened RegistryModel
  import opened Registry
  import opened RuntimeMappings
  import opened Packs
  import opened Dimensions
  import opened Evidence
  import ReleaseKeys
  import C = Coverage

  // ----- when a mapping is ready, without dimensions

  predicate Controller(m: Mapping) {
    Folded(m.direction) == C.CONTROLLER
  }

  /** The catalog knows the attribute, or does not have to. */
  ghost predicate DictionaryReady(ctx: Context, j: Job) {
    Controller(j.mapping) || Blank(j.mapping.attribute)
      || C.Backs(ctx.names, ctx.normalizePack, ctx.vendors, j.pack, j.mapping)
  }

  /** A linear search of the registry finds a mapped entry, or does not have to. */
  ghost predicate RegistryReady(ctx: Context, j: Job) {
    || Controller(j.mapping) || Owned(ctx.normalizePack(j.pack.key))
    || (FoundEntry(ctx, j).Some? && FoundEntry(ctx, j).value.status != MISSING)
  }

  /** Some registry entry decodes the found entry's number for this pack and semantic. */
  ghost predicate HasDecoder(ctx: Context, j: Job) {
    var found := FoundEntry(ctx, j);
    && found.Some? && found.value.number != 0
    && exists e <- ctx.entries :: Decodes(ctx.normalizePack, e, ctx.normalizePack(j.pack.key), found.value.pen,
                                          found.value.number, j.mapping.semantic)
  }

  predicate Received(m: Mapping) {
    Folded(m.direction) == "inbound" || Folded(m.direction) == "accounting"
  }

  ghost predicate DecodeReady(ctx: Context, j: Job) {
    !Received(j.mapping) || Owned(ctx.normalizePack(j.pack.key)) || HasDecoder(ctx, j)
  }

  ghost predicate JobReady(ctx: Context, j: Job) {
    && Folded(j.mapping.state) == C.IMPLEMENTED && !Blank(j.mapping.semantic)
    && DictionaryReady(ctx, j) && RegistryReady(ctx, j) && DecodeReady(ctx, j)
  }

  // ----- dimensions

  /** The packet_decode dimension of a received vendor mapping passes exactly when a linear scan of the
      registry finds a decoder. */
  lemma {:induction false} DecodeExactly(ctx: Context, j: Job)
    ensures var packKey := ctx.normalizePack(j.pack.key);
            var d := DecodeDimension(ctx.normalizePack, packKey, j.mapping, FoundEntry(ctx, j),
                                     RuntimeEvidence(ctx.normalizePack, Table(ctx.order, ctx.entries)));
            && (Received(j.mapping) && !Owned(packKey) ==> (d.state == Passed <==> HasDecoder(ctx, j)))
            && (!Blocks(d) && !Delays(d) <==> DecodeReady(ctx, j))
  {
    var found := FoundEntry(ctx, j);
    if found.Some? {
      EvidenceExactly(ctx.normalizePack, ctx.order, ctx.entries, ctx.normalizePack(j.pack.key), found.value.pen,
                      found.value.number, j.mapping.semantic);
    }
  }

  /** With its own coverage, the dictionary dimension blocks exactly when the catalog should know the attribute and
      does not. */
  lemma {:induction false} DictionaryExactly(ctx: Context, j: Job)
    ensures var d := DictionaryDimension(ctx.normalizePack(j.pack.key),
                                         C.CoverageOf(ctx.names, ctx.normalizePack, ctx.vendors, j.pack,
                                                      j.mapping), Folded(j.mapping.direction));
            && (d.state == Passed <==>
                !Controller(j.mapping) && C.Backs(ctx.names, ctx.normalizePack, ctx.vendors, j.pack, j.mapping))
            && (!Blocks(d) && !Delays(d) <==> DictionaryReady(ctx, j))
  {
    if Trim(j.mapping.direction) == C.CONTROLLER {
      assert Lower(C.CONTROLLER) == C.CONTROLLER;
    }
  }

  lemma {:induction false} SoftwareReadyExactly(compatibility: string, dims: seq<Dimension>)
    ensures SoftwareOf(compatibility, dims) == Ready <==>
            Folded(compatibility) == C.IMPLEMENTED && forall d <- dims :: !Blocks(d) && !Delays(d)
  {
    assert C.IMPLEMENTED[0] != MISSING[0];
  }

  lemma {:induction false} SixDimensions(a: Dimension, b: Dimension, c: Dimension, d: Dimension, e: Dimension,
                                         f: Dimension)
    ensures (forall x <- [a, b, c, d, e, f] :: !Blocks(x) && !Delays(x))
       <==> (!Blocks(a) && !Delays(a)) && (!Blocks(b) && !Delays(b)) && (!Blocks(c) && !Delays(c))
            && (!Blocks(d) && !Delays(d)) && (!Blocks(e) && !Delays(e)) && (!Blocks(f) && !Delays(f))
  {
    var all := [a, b, c, d, e, f];
    assert all[0] == a && all[1] == b && all[2] == c && all[3] == d && all[4] == e && all[5] == f;
  }

  /** The certification state is read off the device dimension, and is never a claim of certification. */
  lemma {:induction false} NeverCertified(normalizePack: string -> string, j: Job, coverage: C.AttributeCoverage,
                                          entry: Option<Entry>, runtime: set<(string, nat, nat, string)>)
    ensures var certification := CertificationOf(DimensionsOf(normalizePack, j, coverage, entry, runtime));
            && certification != Claimed
            && (certification == Required <==>
                && Folded(j.mapping.state) == C.IMPLEMENTED
                && !Owned(normalizePack(j.pack.key)) && !Blank(C.PackVendor(j.pack)))
  {
    var dims := DimensionsOf(normalizePack, j, coverage, entry, runtime);
    LastDecides(dims);
  }

  lemma {:induction false} LastDecides(dims: seq<Dimension>)
    requires |dims| == 6 && dims[5].key == ExternalKey && forall i :: 0 <= i < 5 ==> dims[i].key != ExternalKey
    ensures CertificationOf(dims) == CertificationOf([dims[5]])
  {
    assert dims[1..][1..][1..][1..][1..] == [dims[5]];
    assert CertificationOf(dims) == CertificationOf(dims[1..]);
    assert CertificationOf(dims[1..]) == CertificationOf(dims[1..][1..]);
    assert CertificationOf(dims[1..][1..]) == CertificationOf(dims[1..][1..][1..]);
    assert CertificationOf(dims[1..][1..][1..]) == CertificationOf(dims[1..][1..][1..][1..]);
  }

  lemma {:induction false} FoldedTwice(s: string)
    ensures Folded(Folded(s)) == Folded(s)
  {
    FoldedTexts(s);
  }

  /** The dimensions and the software state of a mapping that is judged by its own coverage. */
  ghost function OwnDimensions(ctx: Context, j: Job): seq<Dimension> {
    DimensionsOf(ctx.normalizePack, j, C.CoverageOf(ctx.names, ctx.normalizePack, ctx.vendors, j.pack, j.mapping),
                 FoundEntry(ctx, j), RuntimeEvidence(ctx.normalizePack, Table(ctx.order, ctx.entries)))
  }

  ghost function OwnSoftware(ctx: Context, j: Job): Software {
    SoftwareOf(Folded(j.mapping.state), OwnDimensions(ctx, j))
  }

  /** A mapping that is covered by its own coverage is ready exactly when it is implemented, has a
      semantic, and the plain searches find what it needs. */
  lemma {:induction false} ReadyExactly(ctx: Context, j: Job)
    ensures OwnSoftware(ctx, j) == Ready <==> JobReady(ctx, j)
  {
    var dims := OwnDimensions(ctx, j);
    FoldedTwice(j.mapping.state);
    SoftwareReadyExactly(Folded(j.mapping.state), dims);
    SixDimensions(dims[0], dims[1], dims[2], dims[3], dims[4], dims[5]);
    assert dims == [dims[0], dims[1], dims[2], dims[3], dims[4], dims[5]];
    DictionaryExactly(ctx, j);
    DecodeExactly(ctx, j);
  }

  // ----- mappings without an attribute name

  /** The normalisers leave blank attribute names blank, and no registry entry has a blank name. */
  ghost predicate NamesAreTexts(ctx: Context) {
    && (forall v, a :: Blank(a) ==> Blank(ctx.names.attribute(v, a)))
    && (forall e <- ctx.entries :: !Blank(ctx.names.attribute(ctx.names.vendor(e.vendor), e.attribute)))
  }

  /** The dictionary dimension never stops a mapping without an attribute name, so it is ready exactly
      when it is implemented, has a semantic and satisfies the registry and decoder dimensions. */
  lemma {:induction false} BlankAttributeReady(ctx: Context, j: Job)
    requires Blank(j.mapping.attribute)
    ensures JobReady(ctx, j) <==>
              Folded(j.mapping.state) == C.IMPLEMENTED && !Blank(j.mapping.semantic) && RegistryReady(ctx, j)
                && DecodeReady(ctx, j)
  {
  }

  lemma {:induction false} BlankIsNotFound(ctx: Context, j: Job)
    requires Blank(j.mapping.attribute) && NamesAreTexts(ctx)
    ensures FoundEntry(ctx, j).None?
  {
    var a := PackAttribute(ctx.names, j.pack, j.mapping.attribute);
    assert a == "" && Trim(a) == "" && Lower("") == "";
    var k := NameKey(ctx.names, j.pack.vendorName, a);
    assert Blank(a);
    assert k.1 == "";
    LastNamedFacts(ctx.names, ctx.entries, k);
    forall i | 0 <= i < |ctx.entries| ensures EntryName(ctx.names, ctx.entries[i]) != k {
      assert ctx.entries[i] in ctx.entries;
    }
    forall key: PackIndexKey | key.attribute == "" ensures NaiveAnswer(ctx.names, ctx.entries, key).None? {
      FirstAnsweringFacts(ctx.names, ctx.entries, key);
    }
  }

  /** Nothing looks a mapping up: it is a controller call, or its pack is standard or the product's own. */
  predicate Exempt(ctx: Context, j: Job) {
    Controller(j.mapping) || Owned(ctx.normalizePack(j.pack.key))
  }

  /** Exactly when a mapping without an attribute name is ready, and when it is stopped: an implemented one
      with a semantic is ready if it is exempt, and every other implemented one is blocked. */
  lemma {:induction false} BlankReadyExactly(ctx: Context, j: Job)
    requires Blank(j.mapping.attribute) && NamesAreTexts(ctx)
    ensures OwnSoftware(ctx, j) == Ready
       <==> Folded(j.mapping.state) == C.IMPLEMENTED && !Blank(j.mapping.semantic) && Exempt(ctx, j)
    ensures OwnSoftware(ctx, j) == Stopped
       <==> Folded(j.mapping.state) == C.IMPLEMENTED && (Blank(j.mapping.semantic) || !Exempt(ctx, j))
  {
    ReadyExactly(ctx, j);
    BlankAttributeReady(ctx, j);
    BlankIsNotFound(ctx, j);
    assert C.CONTROLLER[0] != "inbound"[0] && C.CONTROLLER[0] != "accounting"[0];
    if Folded(j.mapping.state) == C.IMPLEMENTED && (Blank(j.mapping.semantic) || !Exempt(ctx, j)) {
      BlankStops(ctx, j);
    }
    FoldedTwice(j.mapping.state);
  }

  lemma {:induction false} BlankStops(ctx: Context, j: Job)
    requires FoundEntry(ctx, j).None? && Folded(j.mapping.state) == C.IMPLEMENTED
    requires Blank(j.mapping.semantic) || !Exempt(ctx, j)
    ensures OwnSoftware(ctx, j) == Stopped
  {
    var dims := OwnDimensions(ctx, j);
    FoldedTwice(j.mapping.state);
    assert C.IMPLEMENTED[0] != MISSING[0];
    var k := if Blank(j.mapping.semantic) then 4 else 1;
    assert Blocks(dims[k]) && dims[k] in dims;
  }

  /** The concrete mappings without an attribute name that are ready: in the product's own pack, in the
      standard pack, and as a controller call of a vendor pack. */
  lemma {:induction false} BlankMappingsReady(ctx: Context, key: string)
    requires NamesAreTexts(ctx) && key in {AEGISNAS, STANDARD, "cisco"} && ctx.normalizePack(key) == key
    ensures var direction := if key == "cisco" then C.CONTROLLER else "outbound_reply";
            OwnSoftware(ctx, Job(Pack(key, "", 0, []), Mapping("x", "", direction, "", C.IMPLEMENTED))) == Ready
  {
    var direction := if key == "cisco" then C.CONTROLLER else "outbound_reply";
    var j := Job(Pack(key, "", 0, []), Mapping("x", "", direction, "", C.IMPLEMENTED));
    StripFixed(IsSpace, C.IMPLEMENTED);
    StripFixed(IsSpace, C.CONTROLLER);
    StripFixed(IsSpace, "x");
    assert Lower(C.IMPLEMENTED) == C.IMPLEMENTED && Lower(C.CONTROLLER) == C.CONTROLLER;
    BlankReadyExactly(ctx, j);
  }

  // ----- the validator

  lemma {:induction false} RecordOrder()
    ensures TotalPreorder(RecordNotAfter)
  {
    forall x, y ensures RecordNotAfter(x, y) || RecordNotAfter(y, x) {
      if Less(x.id, y.id) {
        LessAsymmetric(x.id, y.id);
      }
    }
    forall x, y, z | RecordNotAfter(x, y) && RecordNotAfter(y, z) ensures RecordNotAfter(x, z) {
      NotLessTransitive(x.id, y.id, z.id);
    }
  }

  ghost function RecordOf(ctx: Context, packs: seq<Pack>, j: Job): Record {
    Located(ctx, Builder(ctx, CoverageTable(ctx, packs),
                         RuntimeEvidence(ctx.normalizePack, Table(ctx.order, ctx.entries))))(j)
  }

  lemma {:induction false} RecordFacts(ctx: Context, packs: seq<Pack>, j: Job)
    ensures var r := RecordOf(ctx, packs, j);
            r.id == JobID(ctx.normalizePack, j) && AcceptableRecord(r)
  {
    FoldedTwice(j.mapping.direction);
    RecordIDIsText(JobKey(ctx.normalizePack, j));
    var coverage := Lookup(CoverageTable(ctx, packs), JobKey(ctx.normalizePack, j));
    NeverCertified(ctx.normalizePack, j, coverage, FoundEntry(ctx, j),
                   RuntimeEvidence(ctx.normalizePack, Table(ctx.order, ctx.entries)));
  }

  ghost function IDs(ctx: Context): Job -> string {
    (j: Job) => JobID(ctx.normalizePack, j)
  }

  lemma {:induction false} BuiltFacts(ctx: Context, packs: seq<Pack>)
    ensures |Built(ctx, packs)| == |Jobs(packs)|
    ensures forall i :: 0 <= i < |Jobs(packs)| ==>
              Built(ctx, packs)[i] == RecordOf(ctx, packs, Jobs(packs)[i])
                && Built(ctx, packs)[i].id == JobID(ctx.normalizePack, Jobs(packs)[i])
                && AcceptableRecord(Built(ctx, packs)[i])
  {
    forall i | 0 <= i < |Jobs(packs)|
      ensures Built(ctx, packs)[i] == RecordOf(ctx, packs, Jobs(packs)[i])
              && Built(ctx, packs)[i].id == JobID(ctx.normalizePack, Jobs(packs)[i])
              && AcceptableRecord(Built(ctx, packs)[i])
    {
      RecordFacts(ctx, packs, Jobs(packs)[i]);
    }
  }

  lemma {:induction false} RecordsAcceptable(ctx: Context, packs: seq<Pack>)
    ensures var rs := StableSort(RecordNotAfter, Built(ctx, packs));
            && |rs| == |Jobs(packs)| && multiset(rs) == multiset(Built(ctx, packs))
            && forall i :: 0 <= i < |rs| ==> AcceptableRecord(rs[i])
  {
    var built := Built(ctx, packs);
    var rs := StableSort(RecordNotAfter, built);
    RecordOrder();
    StableSortFacts(RecordNotAfter, built);
    BuiltFacts(ctx, packs);
    forall i | 0 <= i < |rs| ensures AcceptableRecord(rs[i]) {
      assert rs[i] in multiset(built);
    }
  }

  /** The validator accepts a built report exactly when the source hash is there and no two mappings
      share a record ID: every other check always passes. */
  lemma {:induction false} AcceptedExactly(ctx: Context, packs: seq<Pack>, report: Report)
    requires IsReport(ctx, packs, report)
    ensures Acceptable(report) <==> !Blank(ctx.sha) && UniqueKeys(IDs(ctx), Jobs(packs))
  {
    var built, rs, jobs := Built(ctx, packs), report.records, Jobs(packs);
    RecordsAcceptable(ctx, packs);
    BuiltFacts(ctx, packs);
    if UniqueKeys(IDOf, built) {
      UniqueKeysPermute(IDOf, built, rs);
    }
    if UniqueKeys(IDOf, rs) {
      UniqueKeysPermute(IDOf, rs, built);
    }
    SameIDs(ctx, built, jobs);
    ReleaseKeys.ProfileIsText();
  }

  lemma {:induction false} SameIDs(ctx: Context, built: seq<Record>, jobs: seq<Job>)
    requires |built| == |jobs| && forall i :: 0 <= i < |jobs| ==> built[i].id == JobID(ctx.normalizePack, jobs[i])
    ensures UniqueKeys(IDOf, built) <==> UniqueKeys(IDs(ctx), jobs)
  {
    assert forall i :: 0 <= i < |jobs| ==> IDOf(built[i]) == IDs(ctx)(jobs[i]);
  }

  // ----- shared record IDs

  predicate ColonFree(key: MappingKey) {
    ':' !in key.0 && ':' !in key.1 && ':' !in key.2
  }

  /** A key with its spaces turned into dashes. */
  function DashedKey(key: MappingKey): MappingKey {
    (SpacesToDashes(key.0), SpacesToDashes(key.1), SpacesToDashes(key.2), SpacesToDashes(key.3))
  }

  lemma {:induction false} JoinFive(a: string, b: string, c: string, d: string, e: string)
    ensures Join([a, b, c, d, e], ':') == a + ":" + (b + ":" + (c + ":" + (d + ":" + e)))
  {
    assert [a, b, c, d, e][1..] == [b, c, d, e] && [b, c, d, e][1..] == [c, d, e];
    assert [c, d, e][1..] == [d, e] && [d, e][1..] == [e];
    assert Join([d, e], ':') == d + ":" + e;
    assert Join([c, d, e], ':') == c + ":" + Join([d, e], ':');
    assert Join([b, c, d, e], ':') == b + ":" + Join([c, d, e], ':');
  }

  /** Two keys whose fields before the direction have no colon share a record ID exactly when their
      fields are equal after spaces became dashes. */
  lemma {:induction false} SameIDExactly(a: MappingKey, b: MappingKey)
    requires ColonFree(a) && ColonFree(b)
    ensures RecordID(a) == RecordID(b) <==> DashedKey(a) == DashedKey(b)
  {
    JoinFive("attribute", a.0, a.1, a.2, a.3);
    JoinFive("attribute", b.0, b.1, b.2, b.3);
    var a2, b2 := a.2 + ":" + a.3, b.2 + ":" + b.3;
    var a1, b1 := a.1 + ":" + a2, b.1 + ":" + b2;
    DashedCut("attribute", a.0 + ":" + a1, "attribute", b.0 + ":" + b1);
    DashedCut(a.0, a1, b.0, b1);
    DashedCut(a.1, a2, b.1, b2);
    DashedCut(a.2, a.3, b.2, b.3);
  }

  ghost function DashedKeys(ctx: Context): Job -> MappingKey {
    (j: Job) => DashedKey(JobKey(ctx.normalizePack, j))
  }

  /** So, for mappings without colons in these fields, the validator accepts a built report exactly when
      the source hash is there and no two mappings agree in pack, semantic, attribute and direction,
      ignoring case, outer space, and spaces for dashes. */
  lemma {:induction false} AcceptedByFields(ctx: Context, packs: seq<Pack>, report: Report)
    requires IsReport(ctx, packs, report)
    requires forall j <- Jobs(packs) :: ColonFree(JobKey(ctx.normalizePack, j))
    ensures Acceptable(report) <==> !Blank(ctx.sha) && UniqueKeys(DashedKeys(ctx), Jobs(packs))
  {
    AcceptedExactly(ctx, packs, report);
    var jobs := Jobs(packs);
    forall i, k | 0 <= i < k < |jobs| ensures IDs(ctx)(jobs[i]) == IDs(ctx)(jobs[k]) <==>
      DashedKeys(ctx)(jobs[i]) == DashedKeys(ctx)(jobs[k]) {
      assert jobs[i] in jobs && jobs[k] in jobs;
      SameIDExactly(JobKey(ctx.normalizePack, jobs[i]), JobKey(ctx.normalizePack, jobs[k]));
    }
  }

  /** Two different mappings share a record ID, so the validator rejects a report with both. */
  lemma {:induction false} SpaceAndDashShareID(pack: string, semantic: string, direction: string)
    ensures RecordID((pack, semantic, "a b", direction)) == RecordID((pack, semantic, "a-b", direction))
  {
    JoinFive("attribute", pack, semantic, "a b", direction);
    JoinFive("attribute", pack, semantic, "a-b", direction);
    DashedCut("a b", direction, "a-b", direction);
    assert SpacesToDashes("a b") == SpacesToDashes("a-b");
    var x, y := "a b" + ":" + direction, "a-b" + ":" + direction;
    DashesConcat("attribute" + ":" + (pack + ":" + (semantic + ":")), x);
    DashesConcat("attribute" + ":" + (pack + ":" + (semantic + ":")), y);
    assert "attribute" + ":" + (pack + ":" + (semantic + ":")) + x
           == "attribute" + ":" + (pack + ":" + (semantic + ":" + x));
    assert "attribute" + ":" + (pack + ":" + (semantic + ":")) + y
           == "attribute" + ":" + (pack + ":" + (semantic + ":" + y));
  }

  // ----- conservation and meaning

  /** The four software states add up to the number of mappings, and nothing counts as certified. */
  lemma {:induction false} StatesConserve(ctx: Context, packs: seq<Pack>, report: Report)
    requires IsReport(ctx, packs, report)
    ensures var s := report.summary;
            && s.ready + s.planned + s.blocked + s.metadata == s.total == |Jobs(packs)|
            && s.certified == 0
  {
    RecordsAcceptable(ctx, packs);
    FourStates(report.records);
    CountZero(ClaimsCertified, report.records);
  }

  lemma {:induction false} FourStates(rs: seq<Record>)
    ensures Count(IsReady, rs) + Count(IsPending, rs) + Count(IsStopped, rs) + Count(IsMetadata, rs) == |rs|
  {
    if rs != [] {
      FourStates(rs[..|rs| - 1]);
    }
  }

  /** When no two mappings share a record ID, each is judged by its own coverage. */
  lemma {:induction false} OwnCoverage(ctx: Context, packs: seq<Pack>, i: nat)
    requires i < |Jobs(packs)| && UniqueKeys(IDs(ctx), Jobs(packs))
    ensures var j := Jobs(packs)[i];
            Lookup(CoverageTable(ctx, packs), JobKey(ctx.normalizePack, j))
              == C.CoverageOf(ctx.names, ctx.normalizePack, ctx.vendors, j.pack, j.mapping)
  {
    var jobs := Jobs(packs);
    var pairs := Mapped(JobPair(ctx), jobs);
    forall k | i < k < |pairs| ensures pairs[k].0 != pairs[i].0 {
      assert IDs(ctx)(jobs[i]) != IDs(ctx)(jobs[k]);
    }
    AssignKeeps(pairs, i);
  }

  lemma {:induction false} RecordReady(ctx: Context, packs: seq<Pack>, i: nat)
    requires i < |Jobs(packs)| && UniqueKeys(IDs(ctx), Jobs(packs))
    ensures IsReady(RecordOf(ctx, packs, Jobs(packs)[i])) <==> JobReady(ctx, Jobs(packs)[i])
  {
    OwnCoverage(ctx, packs, i);
    ReadyExactly(ctx, Jobs(packs)[i]);
  }

  ghost function ReadyIn(ctx: Context): Job -> bool {
    (j: Job) => JobReady(ctx, j)
  }

  /** In an accepted report the published number of ready mappings is the number of mappings that plain
      searches of the catalog and the registry find ready. */
  lemma {:induction false} ReadyCountExactly(ctx: Context, packs: seq<Pack>, report: Report)
    requires IsReport(ctx, packs, report) && Acceptable(report)
    ensures report.summary.ready == Count(ReadyIn(ctx), Jobs(packs))
  {
    AcceptedExactly(ctx, packs, report);
    var f := Located(ctx, Builder(ctx, CoverageTable(ctx, packs),
                                  RuntimeEvidence(ctx.normalizePack, Table(ctx.order, ctx.entries))));
    var jobs := Jobs(packs);
    forall i | 0 <= i < |jobs| ensures IsReady(f(jobs[i])) == ReadyIn(ctx)(jobs[i]) {
      RecordReady(ctx, packs, i);
      assert f(jobs[i]) == RecordOf(ctx, packs, jobs[i]);
    }
    CountThrough(IsReady, f, ReadyIn(ctx), jobs);
    StableSortCount(RecordNotAfter, IsReady, Built(ctx, packs));
  }
}

/** What an evidence record says of its mapping, read off the pack, the catalog and the registry: each of
    the six dimensions, all four software states, the certification state and the claim
    (configs/compatibility_evidence.go). */
module EvidenceStates {
  import opened Text
  import opened Sequences
  import opened Wrappers
  import opened RegistryModel
  import opened Registry
  import opened RuntimeMappings
  import opened Packs
  import opened Dimensions
  import opened Evidence
  import opened EvidenceLaws
  import C = Coverage

  predicate IsImplemented(m: Mapping) {
    Folded(m.state) == C.IMPLEMENTED
  }

  /** Nothing is declared about the mapping's software. */
  predicate IsUndeclared(m: Mapping) {
    Folded(m.state) == "" || Folded(m.state) == MISSING
  }

  /** The catalog holds the attribute, as it always does for the standard pack. */
  predicate InCatalog(ctx: Context, j: Job) {
    C.Backs(ctx.names, ctx.normalizePack, ctx.vendors, j.pack, j.mapping)
  }

  /** A plain search finds an entry that is not missing. */
  ghost predicate InRegistry(ctx: Context, j: Job) {
    FoundEntry(ctx, j).Some? && FoundEntry(ctx, j).value.status != MISSING
  }

  ghost predicate HasNumber(ctx: Context, j: Job) {
    FoundEntry(ctx, j).Some? && FoundEntry(ctx, j).value.number != 0
  }

  predicate IsThirdParty(ctx: Context, j: Job) {
    !Owned(ctx.normalizePack(j.pack.key)) && !Blank(C.PackVendor(j.pack))
  }

  ghost predicate Says(d: Dimension, key: DimensionKey, applies: bool, state: DimensionState) {
    d == if applies then Dimension(key, state, true) else Dimension(key, NotApplicable, false)
  }

  ghost predicate SaysDictionary(ctx: Context, j: Job, d: Dimension) {
    Says(d, DictionaryKey, !Controller(j.mapping),
         if InCatalog(ctx, j) then Passed else if Blank(j.mapping.attribute) then MetadataOnly else Blocked)
  }

  ghost predicate SaysRegistry(ctx: Context, j: Job, d: Dimension) {
    Says(d, RegistryKey, !Exempt(ctx, j), if InRegistry(ctx, j) then Passed else Blocked)
  }

  ghost predicate SaysDecode(ctx: Context, j: Job, d: Dimension) {
    Says(d, DecodeKey, Received(j.mapping),
         if Owned(ctx.normalizePack(j.pack.key)) || HasDecoder(ctx, j) then Passed
         else if HasNumber(ctx, j) then Planned else Blocked)
  }

  ghost predicate SaysReply(j: Job, d: Dimension) {
    Says(d, ReplyKey, Folded(j.mapping.direction) == "outbound_reply",
         if IsImplemented(j.mapping) then Passed else Planned)
  }

  ghost predicate SaysPolicy(j: Job, d: Dimension) {
    Says(d, PolicyKey, true,
         if Blank(j.mapping.semantic) then Blocked else if IsImplemented(j.mapping) then Passed else Planned)
  }

  ghost predicate SaysExternal(ctx: Context, j: Job, d: Dimension) {
    && d.key == ExternalKey && !d.required
    && (d.state == ExternalRequired <==> IsImplemented(j.mapping) && IsThirdParty(ctx, j))
    && (d.state == NotApplicable <==> IsImplemented(j.mapping) && !IsThirdParty(ctx, j))
    && (d.state == Planned <==> !IsImplemented(j.mapping))
  }

  lemma {:induction false} DictionarySays(ctx: Context, j: Job)
    ensures SaysDictionary(ctx, j, OwnDimensions(ctx, j)[0])
  {
    if Trim(j.mapping.direction) == C.CONTROLLER {
      assert Lower(C.CONTROLLER) == C.CONTROLLER;
    }
  }

  lemma {:induction false} RegistrySays(ctx: Context, j: Job)
    ensures SaysRegistry(ctx, j, OwnDimensions(ctx, j)[1])
  {
  }

  lemma {:induction false} DecodeSays(ctx: Context, j: Job)
    ensures SaysDecode(ctx, j, OwnDimensions(ctx, j)[2])
  {
    var found := FoundEntry(ctx, j);
    if found.Some? {
      EvidenceExactly(ctx.normalizePack, ctx.order, ctx.entries, ctx.normalizePack(j.pack.key), found.value.pen,
                      found.value.number, j.mapping.semantic);
    }
  }

  /** The six dimensions of a mapping judged by its own coverage. */
  lemma {:induction false} DimensionsSay(ctx: Context, j: Job)
    ensures var dims := OwnDimensions(ctx, j);
            && |dims| == 6
            && SaysDictionary(ctx, j, dims[0]) && SaysRegistry(ctx, j, dims[1]) && SaysDecode(ctx, j, dims[2])
            && SaysReply(j, dims[3]) && SaysPolicy(j, dims[4]) && SaysExternal(ctx, j, dims[5])
  {
    DictionarySays(ctx, j);
    RegistrySays(ctx, j);
    DecodeSays(ctx, j);
  }

  // ----- states

  /** Its attribute should be in the catalog and is not. */
  predicate LacksAttribute(ctx: Context, j: Job) {
    !Controller(j.mapping) && !Blank(j.mapping.attribute) && !InCatalog(ctx, j)
  }

  ghost predicate LacksEntry(ctx: Context, j: Job) {
    !Exempt(ctx, j) && !InRegistry(ctx, j)
  }

  ghost predicate LacksNumber(ctx: Context, j: Job) {
    Received(j.mapping) && !Owned(ctx.normalizePack(j.pack.key)) && !HasNumber(ctx, j)
  }

  /** Something the mapping needs is not there: its dictionary attribute, its registry entry, a number to
      decode by, or a semantic. */
  ghost predicate Lacks(ctx: Context, j: Job) {
    LacksAttribute(ctx, j) || LacksEntry(ctx, j) || LacksNumber(ctx, j) || Blank(j.mapping.semantic)
  }

  /** It is received, and nothing decodes it yet. */
  ghost predicate AwaitsDecoder(ctx: Context, j: Job) {
    Received(j.mapping) && !Owned(ctx.normalizePack(j.pack.key)) && !HasDecoder(ctx, j)
  }

  /** All four software states, by what is declared and what plain searches find. */
  lemma {:induction false} SoftwareExactly(ctx: Context, j: Job)
    ensures OwnSoftware(ctx, j)
         == if IsUndeclared(j.mapping) then Metadata
            else if !IsImplemented(j.mapping) then Pending
            else if Lacks(ctx, j) then Stopped
            else if AwaitsDecoder(ctx, j) then Pending
            else Ready
  {
    var dims := OwnDimensions(ctx, j);
    FoldedTwice(j.mapping.state);
    assert C.IMPLEMENTED[0] != MISSING[0];
    if IsImplemented(j.mapping) {
      DimensionsSay(ctx, j);
      BlocksExactly(ctx, j);
      if !Lacks(ctx, j) {
        DelaysExactly(ctx, j);
      }
    }
  }

  lemma {:induction false} DecoderHasNumber(ctx: Context, j: Job)
    ensures HasDecoder(ctx, j) ==> HasNumber(ctx, j)
  {
  }

  lemma {:induction false} BlocksExactly(ctx: Context, j: Job)
    ensures (exists d <- OwnDimensions(ctx, j) :: Blocks(d)) <==> Lacks(ctx, j)
  {
    var dims := OwnDimensions(ctx, j);
    DimensionsSay(ctx, j);
    DecoderHasNumber(ctx, j);
    EachBlocks(ctx, j, dims[0], dims[1], dims[2], dims[3], dims[4], dims[5]);
    SixBlocks(dims);
  }

  lemma {:induction false} SixBlocks(dims: seq<Dimension>)
    requires |dims| == 6
    ensures (exists d <- dims :: Blocks(d))
       <==> || Blocks(dims[0]) || Blocks(dims[1]) || Blocks(dims[2]) || Blocks(dims[3]) || Blocks(dims[4])
            || Blocks(dims[5])
  {
    assert forall i :: 0 <= i < 6 ==> dims[i] in dims;
  }

  lemma {:induction false} EachBlocks(ctx: Context, j: Job, a: Dimension, b: Dimension, c: Dimension, d: Dimension,
                                      e: Dimension, f: Dimension)
    requires SaysDictionary(ctx, j, a) && SaysRegistry(ctx, j, b) && SaysDecode(ctx, j, c)
    requires SaysReply(j, d) && SaysPolicy(j, e) && SaysExternal(ctx, j, f)
    requires HasDecoder(ctx, j) ==> HasNumber(ctx, j)
    ensures Blocks(a) <==> LacksAttribute(ctx, j)
    ensures Blocks(b) <==> LacksEntry(ctx, j)
    ensures Blocks(c) <==> LacksNumber(ctx, j)
    ensures !Blocks(d) && (Blocks(e) <==> Blank(j.mapping.semantic)) && !Blocks(f)
  {
  }

  lemma {:induction false} DelaysExactly(ctx: Context, j: Job)
    requires IsImplemented(j.mapping) && !Lacks(ctx, j)
    ensures (exists d <- OwnDimensions(ctx, j) :: Delays(d)) <==> AwaitsDecoder(ctx, j)
  {
    var dims := OwnDimensions(ctx, j);
    DimensionsSay(ctx, j);
    assert Delays(dims[2]) <==> AwaitsDecoder(ctx, j);
    assert dims[2] in dims;
  }

  /** What a record says besides its dimensions: the mapping's texts, the found entry's keys, and states
      and claim that agree with each other. */
  ghost predicate SaysRecord(ctx: Context, j: Job, r: Record) {
    var found := FoundEntry(ctx, j);
    && r.packKey == ctx.normalizePack(j.pack.key) && (r.active <==> r.packKey in ctx.active)
    && r.vendorName == C.PackVendor(j.pack) && r.vendorID == j.pack.vendorID
    && r.attribute == Trim(j.mapping.attribute) && r.semantic == Trim(j.mapping.semantic)
    && r.direction == Folded(j.mapping.direction) && r.valueType == Trim(j.mapping.valueType)
    && r.compatibility == Folded(j.mapping.state)
    && r.registryKey == (if found.Some? then found.value.key else "")
    && r.wireKey == (if found.Some? then found.value.wireKey else "")
    && r.dictionaryStatus == (if found.Some? then found.value.status else "")
  }

  ghost predicate SaysStates(ctx: Context, j: Job, r: Record) {
    var external := IsImplemented(j.mapping) && IsThirdParty(ctx, j);
    && r.software == OwnSoftware(ctx, j) && r.certification == (if external then Required else NotRequired)
    && r.ready == (r.software == Ready) && r.externalRequired == external
    && r.readyForExternal == (r.ready && external)
    && r.claim == match r.software
         case Ready => if external then SoftwareReadyExternalNeeded else SoftwareReady
         case Stopped => ClaimBlocked
         case Pending => ClaimPlanned
         case Metadata => ClaimMetadata
  }

  lemma {:induction false} CertificationSays(ctx: Context, j: Job)
    ensures CertificationOf(OwnDimensions(ctx, j))
         == if IsImplemented(j.mapping) && IsThirdParty(ctx, j) then Required else NotRequired
  {
    var dims := OwnDimensions(ctx, j);
    DimensionsSay(ctx, j);
    LastDecides(dims);
    OneDecides(dims[5]);
  }

  lemma {:induction false} OneDecides(d: Dimension)
    requires d.key == ExternalKey && d.state in {ExternalRequired, NotApplicable, Planned}
    ensures CertificationOf([d]) == if d.state == ExternalRequired then Required else NotRequired
  {
  }

  /** The record of a mapping judged by its own coverage. */
  lemma {:induction false} RecordSays(ctx: Context, j: Job)
    ensures var r := RecordFrom(ctx, j, FoundEntry(ctx, j), OwnDimensions(ctx, j));
            SaysRecord(ctx, j, r) && SaysStates(ctx, j, r) && r.dimensions == OwnDimensions(ctx, j)
  {
    CertificationSays(ctx, j);
    FoldedTwice(j.mapping.direction);
  }

  /** When record IDs differ, every record of the report says so of its mapping. */
  lemma {:induction false} RecordsSay(ctx: Context, packs: seq<Pack>, i: nat)
    requires i < |Jobs(packs)| && UniqueKeys(IDs(ctx), Jobs(packs))
    ensures var j, r := Jobs(packs)[i], RecordOf(ctx, packs, Jobs(packs)[i]);
            && SaysRecord(ctx, j, r) && SaysStates(ctx, j, r) && |r.dimensions| == 6
            && SaysDictionary(ctx, j, r.dimensions[0]) && SaysRegistry(ctx, j, r.dimensions[1])
            && SaysDecode(ctx, j, r.dimensions[2]) && SaysReply(j, r.dimensions[3])
            && SaysPolicy(j, r.dimensions[4]) && SaysExternal(ctx, j, r.dimensions[5])
  {
    var j := Jobs(packs)[i];
    OwnCoverage(ctx, packs, i);
    RecordSays(ctx, j);
    DimensionsSay(ctx, j);
    OwnRecord(ctx, packs, j);
  }

  lemma {:induction false} OwnRecord(ctx: Context, packs: seq<Pack>, j: Job)
    requires Lookup(CoverageTable(ctx, packs), JobKey(ctx.normalizePack, j))
          == C.CoverageOf(ctx.names, ctx.normalizePack, ctx.vendors, j.pack, j.mapping)
    ensures RecordOf(ctx, packs, j) == RecordFrom(ctx, j, FoundEntry(ctx, j), OwnDimensions(ctx, j))
  {
  }
}

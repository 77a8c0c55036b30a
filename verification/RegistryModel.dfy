/** The typed attribute registry as values: entries, index keys, linear searches, and what annotations
    and profile passes do to one entry (configs/attribute_registry.go). */
module RegistryModel {
  import opened Text
  import opened Sequences
  import opened Numbers
  import opened SemanticSets

  datatype Entry = Entry(
    source: string, key: string, wireKey: string, vendor: string, pen: nat, attribute: string,
    number: nat, oid: string, wireType: string, family: string, status: string, packKey: string,
    semantic: string, provenance: string, directions: seq<string>, functionality: string,
    decodeKind: string, decodeSemantic: string, decodeScale: int)

  /** The release profile's name normalisers, which the registry only calls. */
  datatype Names = Names(vendor: string -> string, attribute: (string, string) -> string)

  const MISSING := "missing"
  const PARTIAL := "partial"

  function WireKey(pen: nat, number: nat): string {
    "vsa:" + Decimal(pen) + ":" + Decimal(number)
  }

  // ----- index keys

  /** `attributeRegistryNameKey`, the NUL-joined pair as a tuple. */
  function NameKey(names: Names, vendor: string, attribute: string): (string, string) {
    var v := names.vendor(vendor);
    (Lower(Trim(v)), Lower(Trim(names.attribute(v, attribute))))
  }

  function EntryName(names: Names, e: Entry): (string, string) {
    NameKey(names, e.vendor, e.attribute)
  }

  datatype PackIndexKey = ByPEN(pen: nat, attribute: string) | ByVendor(vendor: string, attribute: string)

  /** The trimmed non-empty texts after the dashes of `name` from position `i` on. */
  function DashSuffixes(name: string, i: nat): seq<string>
    requires i <= |name|
    decreases |name| - i
  {
    if i == |name| then []
    else (if name[i] == '-' && i + 1 < |name| && !Blank(name[i + 1..]) then [Trim(name[i + 1..])]
          else []) + DashSuffixes(name, i + 1)
  }

  /** `attributeRegistryPackAttributeCandidates`. */
  function Candidates(attribute: string): seq<string> {
    var name := Lower(Trim(attribute));
    if name == "" then [] else Distinct(Itself, {}, [name] + DashSuffixes(name, 0))
  }

  function FoldedVendor(names: Names, e: Entry): string {
    Lower(Trim(names.vendor(e.vendor)))
  }

  function FoldedAttribute(names: Names, e: Entry): string {
    Lower(Trim(names.attribute(e.vendor, e.attribute)))
  }

  function KeysFor(pen: nat, vendor: string, candidate: string): seq<PackIndexKey> {
    (if pen > 0 then [ByPEN(pen, Lower(Trim(candidate)))] else []) +
    (if vendor != "" then [ByVendor(Lower(Trim(vendor)), Lower(Trim(candidate)))] else [])
  }

  function KeysForAll(pen: nat, vendor: string, candidates: seq<string>): seq<PackIndexKey> {
    if candidates == [] then [] else KeysFor(pen, vendor, candidates[0]) + KeysForAll(pen, vendor, candidates[1..])
  }

  /** Every key under which `addPackAttributeIndex` files an entry, in order. */
  function IndexKeys(names: Names, e: Entry): seq<PackIndexKey> {
    KeysForAll(e.pen, FoldedVendor(names, e), Candidates(FoldedAttribute(names, e)))
  }

  /** What the keys mean: `a` is the folded attribute name or the text after one of its dashes. */
  ghost predicate IsCandidate(name: string, a: string) {
    && a != ""
    && (a == name || HasSuffix(name, 0, a))
  }

  predicate IsSuffixAt(name: string, i: nat, a: string)
    requires i < |name|
  {
    name[i] == '-' && i + 1 < |name| && Trim(name[i + 1..]) == a
  }

  /** An entry answers for a pack key, said without the index. */
  ghost predicate Answers(names: Names, e: Entry, key: PackIndexKey) {
    match key
    case ByPEN(pen, a) => pen > 0 && e.pen == pen && IsCandidate(FoldedAttribute(names, e), a)
    case ByVendor(vendor, a) =>
      vendor != "" && FoldedVendor(names, e) == vendor && IsCandidate(FoldedAttribute(names, e), a)
  }

  lemma {:induction false} FirstSuffix(name: string, i: nat, a: string)
    requires i < |name| && a != ""
    ensures a in DashSuffixes(name, i) <==> IsSuffixAt(name, i, a) || a in DashSuffixes(name, i + 1)
  {
    var head := if name[i] == '-' && i + 1 < |name| && !Blank(name[i + 1..]) then [Trim(name[i + 1..])] else [];
    assert DashSuffixes(name, i) == head + DashSuffixes(name, i + 1);
  }

  /** Some dash from position `i` on has `a` behind it. */
  ghost predicate HasSuffix(name: string, i: nat, a: string) {
    exists k :: i <= k < |name| && IsSuffixAt(name, k, a)
  }

  lemma {:induction false} HasSuffixNext(name: string, i: nat, a: string)
    requires i < |name|
    ensures HasSuffix(name, i, a) <==> IsSuffixAt(name, i, a) || HasSuffix(name, i + 1, a)
  {
    if k :| i + 1 <= k < |name| && IsSuffixAt(name, k, a) {
      assert i <= k;
    }
  }

  lemma {:induction false} DashSuffixMembers(name: string, i: nat, a: string)
    requires i <= |name| && a != ""
    ensures a in DashSuffixes(name, i) <==> HasSuffix(name, i, a)
    decreases |name| - i
  {
    if i < |name| {
      DashSuffixMembers(name, i + 1, a);
      FirstSuffix(name, i, a);
      HasSuffixNext(name, i, a);
    }
  }

  lemma {:induction false} DashSuffixesAreTexts(name: string, i: nat)
    requires i <= |name|
    ensures forall a <- DashSuffixes(name, i) :: a != ""
    decreases |name| - i
  {
    if i < |name| {
      DashSuffixesAreTexts(name, i + 1);
    }
  }

  lemma {:induction false} CandidateMembers(attribute: string, a: string)
    ensures a in Candidates(attribute) <==> IsCandidate(Lower(Trim(attribute)), a)
  {
    var name := Lower(Trim(attribute));
    if name != "" {
      var all := [name] + DashSuffixes(name, 0);
      DashSuffixesAreTexts(name, 0);
      DistinctKeys(Itself, {}, all);
      assert forall x :: x in Distinct(Itself, {}, all) <==> x in all by {
        forall x ensures x in Distinct(Itself, {}, all) <==> x in all {
          assert x in Keys(Itself, Distinct(Itself, {}, all)) <==> x in Keys(Itself, all);
          ItselfKeys(Distinct(Itself, {}, all), x);
          ItselfKeys(all, x);
        }
      }
      if a != "" {
        DashSuffixMembers(name, 0, a);
      }
    }
  }

  lemma {:induction false} FoldedCandidate(name: string, a: string)
    requires Lower(name) == name && CleanEnds(IsSpace, name) && IsCandidate(name, a)
    ensures Lower(Trim(a)) == a
  {
    if a == name {
      StripFixed(IsSpace, a);
    } else {
      var i :| 0 <= i < |name| && IsSuffixAt(name, i, a);
      TrimTrim(name[i + 1..]);
      LowerTrim(name[i + 1..]);
      var t := name[i + 1..];
      assert Lower(name) == Lower(name[..i + 1]) + Lower(t) by {
        assert name == name[..i + 1] + t;
        LowerConcat(name[..i + 1], t);
      }
      assert Lower(t) == t;
    }
  }

  lemma {:induction false} KeysForAllMembers(pen: nat, vendor: string, candidates: seq<string>, key: PackIndexKey)
    ensures key in KeysForAll(pen, vendor, candidates) <==> exists c <- candidates :: key in KeysFor(pen, vendor, c)
  {
    if candidates != [] {
      KeysForAllMembers(pen, vendor, candidates[1..], key);
      assert forall c :: c in candidates <==> c == candidates[0] || c in candidates[1..];
    }
  }

  lemma {:induction false} FoldedTexts(s: string)
    ensures Lower(Trim(Lower(Trim(s)))) == Lower(Trim(s)) && CleanEnds(IsSpace, Lower(Trim(s)))
    ensures Lower(Lower(Trim(s))) == Lower(Trim(s))
  {
    TrimTrim(s);
    LowerTrim(Trim(s));
    LowerLower(Trim(s));
  }

  /** The filed keys are exactly those the entry answers for. */
  lemma {:induction false} IndexKeysMean(names: Names, e: Entry, key: PackIndexKey)
    ensures key in IndexKeys(names, e) <==> Answers(names, e, key)
  {
    var vendor, name := FoldedVendor(names, e), FoldedAttribute(names, e);
    var candidates := Candidates(name);
    KeysForAllMembers(e.pen, vendor, candidates, key);
    FoldedTexts(names.attribute(e.vendor, e.attribute));
    FoldedTexts(names.vendor(e.vendor));
    if c :| c in candidates && key in KeysFor(e.pen, vendor, c) {
      CandidateKey(e.pen, vendor, name, c, key);
    }
    if Answers(names, e, key) {
      CandidateKey(e.pen, vendor, name, key.attribute, key);
    }
  }

  /** Under its own candidate name, an entry is filed with its number and with its vendor. */
  lemma {:induction false} CandidateKey(pen: nat, vendor: string, name: string, c: string, key: PackIndexKey)
    requires Lower(Trim(name)) == name && Lower(name) == name && CleanEnds(IsSpace, name)
             && Lower(Trim(vendor)) == vendor
    ensures c in Candidates(name) <==> IsCandidate(name, c)
    ensures IsCandidate(name, c) ==>
              (key in KeysFor(pen, vendor, c) <==>
                key.attribute == c && match key case ByPEN(p, _) => p == pen > 0
                  case ByVendor(v, _) => v == vendor != "")
  {
    CandidateMembers(name, c);
    if IsCandidate(name, c) {
      FoldedCandidate(name, c);
    }
  }

  // ----- linear searches

  /** Position of the last entry with a name, -1 if there is none. */
  function LastNamed(names: Names, entries: seq<Entry>, k: (string, string)): (i: int)
    ensures -1 <= i < |entries|
  {
    if entries == [] then -1
    else if EntryName(names, entries[|entries| - 1]) == k then |entries| - 1
    else LastNamed(names, entries[..|entries| - 1], k)
  }

  /** Positions of all entries with a wire key, in order. */
  function WireScan(entries: seq<Entry>, w: string): seq<nat> {
    if entries == [] then []
    else WireScan(entries[..|entries| - 1], w) + if entries[|entries| - 1].wireKey == w then [|entries| - 1] else []
  }

  /** Position of the first entry that answers for a pack key, the number of entries if there is none. */
  ghost function FirstAnswering(names: Names, entries: seq<Entry>, key: PackIndexKey): (i: nat)
    ensures i <= |entries|
  {
    if entries == [] || Answers(names, entries[0], key) then 0 else 1 + FirstAnswering(names, entries[1..], key)
  }

  lemma {:induction false} LastNamedFacts(names: Names, entries: seq<Entry>, k: (string, string))
    ensures var i := LastNamed(names, entries, k);
            && (i >= 0 ==> EntryName(names, entries[i]) == k)
            && forall j :: i < j < |entries| ==> EntryName(names, entries[j]) != k
  {
    if entries != [] {
      LastNamedFacts(names, entries[..|entries| - 1], k);
    }
  }

  lemma {:induction false} FirstAnsweringFacts(names: Names, entries: seq<Entry>, key: PackIndexKey)
    ensures var i := FirstAnswering(names, entries, key);
            && (i < |entries| ==> Answers(names, entries[i], key))
            && forall j :: 0 <= j < i ==> !Answers(names, entries[j], key)
  {
    if entries != [] {
      FirstAnsweringFacts(names, entries[1..], key);
    }
  }

  function CountMapped(entries: seq<Entry>): nat {
    if entries == [] then 0
    else CountMapped(entries[..|entries| - 1]) + if entries[|entries| - 1].status != MISSING then 1 else 0
  }

  function VendorPairs(entries: seq<Entry>): set<(string, nat)> {
    set e | e in entries :: (Lower(e.vendor), e.pen)
  }

  ghost predicate UniqueNames(names: Names, entries: seq<Entry>) {
    forall i, j :: 0 <= i < j < |entries| ==> EntryName(names, entries[i]) != EntryName(names, entries[j])
  }

  // ----- what a construction step does to one entry

  datatype Decoder = Decoder(kind: string, semantic: string, scale: int)

  /** The change a runtime annotation makes to an entry of its name. */
  function Annotate(e: Entry, a: Entry): Entry {
    e.(packKey := a.packKey,
       semantic := Merge(e.semantic, a.semantic),
       provenance := Merge(e.provenance, "aegisnas-runtime"),
       directions := a.directions,
       decodeKind := a.decodeKind, decodeSemantic := a.decodeSemantic, decodeScale := a.decodeScale,
       status := if e.status == MISSING then PARTIAL else e.status)
  }

  /** The entry an annotation adds when its name is new. */
  function NewRuntimeEntry(a: Entry): Entry {
    a.(source := "aegisnas-runtime",
       status := if a.status == "" then PARTIAL else a.status,
       provenance := if a.provenance == "" then "aegisnas-runtime" else a.provenance,
       family := if a.family == "" then "Vendor-specific/other" else a.family,
       key := "aegisnas-runtime:" + Decimal(a.pen) + ":" + Lower(a.attribute),
       wireKey := WireKey(a.pen, a.number))
  }

  /** One profile pass: which entries it takes and the functions it applies to them. `readsMerged` says
      whether directions and decoder see the merged semantic or the profile's own, and `keepsDecoder`
      whether an existing decoder of a mapped entry stays. */
  datatype Profile = Profile(
    applies: Entry -> bool,
    semantic: Entry -> string,
    pack: Entry -> string,
    tag: string,
    directions: (Entry, string) -> seq<string>,
    functionality: (Entry, string) -> string,
    decoder: (Entry, string) -> Decoder,
    readsMerged: bool,
    keepsDecoder: bool)

  /** The statements of a profile pass on one entry, in the order they run. */
  function ProfileEntry(p: Profile, e: Entry): Entry {
    if !p.applies(e) then e
    else
      var own := p.semantic(e);
      var e1 := e.(packKey := p.pack(e));
      var e2 := e1.(semantic := Merge(e1.semantic, own));
      var e3 := e2.(provenance := Merge(e2.provenance, p.tag));
      var seen := if p.readsMerged then e3.semantic else own;
      var e4 := e3.(directions := p.directions(e3, seen));
      var e5 := e4.(functionality := p.functionality(e4, seen));
      var d := p.decoder(e5, seen);
      var e6 := if p.keepsDecoder && e.status != MISSING && !Blank(e5.decodeKind) then e5
                else e5.(decodeKind := d.kind, decodeSemantic := d.semantic, decodeScale := d.scale);
      e6.(status := if e.status == MISSING then PARTIAL else e.status)
  }

  // ----- whole constructions as values

  /** One annotation: merged into the entry of its name, or added as a new entry. */
  function Annotated(names: Names, entries: seq<Entry>, a: Entry): seq<Entry> {
    var i := LastNamed(names, entries, EntryName(names, a));
    if i >= 0 then entries[i := Annotate(entries[i], a)] else entries + [NewRuntimeEntry(a)]
  }

  /** All annotations, one after the other. */
  function AnnotateAll(names: Names, entries: seq<Entry>, annotations: seq<Entry>): seq<Entry> {
    if annotations == [] then entries
    else Annotated(names, AnnotateAll(names, entries, annotations[..|annotations| - 1]), annotations[|annotations| - 1])
  }

  function ProfileWith(p: Profile): Entry -> Entry {
    (e: Entry) => ProfileEntry(p, e)
  }

  /** All profile passes, one after the other. */
  function ProfileAll(entries: seq<Entry>, profiles: seq<Profile>): seq<Entry> {
    if profiles == [] then entries
    else Mapped(ProfileWith(profiles[|profiles| - 1]), ProfileAll(entries, profiles[..|profiles| - 1]))
  }

  /** The entries of a finished registry. */
  function Final(names: Names, rows: seq<Entry>, annotations: seq<Entry>, profiles: seq<Profile>): seq<Entry> {
    ProfileAll(AnnotateAll(names, rows, annotations), profiles)
  }

  // ----- what every construction step keeps

  /** Identity never changes; a status never returns to missing and a mapped status stays; semantics
      and provenance only grow and keep their first element. */
  ghost predicate Evolves(before: Entry, after: Entry) {
    && after.source == before.source && after.key == before.key && after.wireKey == before.wireKey
    && after.vendor == before.vendor && after.pen == before.pen && after.attribute == before.attribute
    && after.number == before.number && after.oid == before.oid && after.wireType == before.wireType
    && (before.status != MISSING ==> after.status == before.status)
    && (before.status == MISSING ==> after.status == MISSING || after.status == PARTIAL)
    && Grew(before.semantic, after.semantic) && Grew(before.provenance, after.provenance)
  }

  ghost predicate Grew(before: string, after: string) {
    SemanticKeys(before) <= SemanticKeys(after) && (First(before) != "" ==> First(after) == First(before))
  }

  /** A later registry: earlier entries in place, each evolved. */
  ghost predicate RegistryEvolves(before: seq<Entry>, after: seq<Entry>) {
    |before| <= |after| && forall i :: 0 <= i < |before| ==> Evolves(before[i], after[i])
  }

  lemma {:induction false} GrewByMerge(s: string, t: string)
    ensures Grew(s, Merge(s, t))
  {
    MergeTokens(s, t);
    MergeKeepsFirst(s, t);
  }

  lemma {:induction false} AnnotateEvolves(e: Entry, a: Entry)
    ensures Evolves(e, Annotate(e, a)) && Annotate(e, a).status != MISSING
  {
    GrewByMerge(e.semantic, a.semantic);
    GrewByMerge(e.provenance, "aegisnas-runtime");
  }

  lemma {:induction false} ProfileEvolves(p: Profile, e: Entry)
    ensures Evolves(e, ProfileEntry(p, e))
    ensures p.applies(e) ==> ProfileEntry(p, e).status != MISSING
  {
    GrewByMerge(e.semantic, p.semantic(e));
    GrewByMerge(e.provenance, p.tag);
  }

  /** Evolution composes, so every run of construction steps evolves every entry. */
  lemma {:induction false} EvolvesThen(a: seq<Entry>, b: seq<Entry>, c: seq<Entry>)
    requires RegistryEvolves(a, b) && RegistryEvolves(b, c)
    ensures RegistryEvolves(a, c)
  {
    forall i | 0 <= i < |a| ensures Evolves(a[i], c[i]) {
      assert Evolves(a[i], b[i]) && Evolves(b[i], c[i]);
    }
  }

  lemma {:induction false} EvolvesSelf(a: seq<Entry>)
    ensures RegistryEvolves(a, a)
  {
  }

  // ----- linear searches under the two kinds of change

  /** Entries with the same identity. */
  ghost predicate SameIdentity(before: seq<Entry>, after: seq<Entry>) {
    && |before| == |after|
    && forall i :: 0 <= i < |before| ==> Identity(after[i]) == Identity(before[i])
  }

  /** The fields the indexes are built from. */
  function Identity(e: Entry): (string, nat, string, string) {
    (e.vendor, e.pen, e.attribute, e.wireKey)
  }

  lemma {:induction false} SameIdentitySameScans(names: Names, before: seq<Entry>, after: seq<Entry>,
                                                 k: (string, string), w: string)
    requires SameIdentity(before, after)
    ensures LastNamed(names, after, k) == LastNamed(names, before, k)
    ensures WireScan(after, w) == WireScan(before, w)
    decreases |before|
  {
    if before != [] {
      var n := |before| - 1;
      assert Identity(after[n]) == Identity(before[n]);
      SameIdentitySameScans(names, before[..n], after[..n], k, w);
    }
  }

  lemma {:induction false} SameIdentitySameAnswers(names: Names, before: seq<Entry>, after: seq<Entry>,
                                                   key: PackIndexKey)
    requires SameIdentity(before, after)
    ensures FirstAnswering(names, after, key) == FirstAnswering(names, before, key)
    decreases |before|
  {
    if before != [] {
      assert Identity(after[0]) == Identity(before[0]);
      SameIdentitySameAnswers(names, before[1..], after[1..], key);
    }
  }

  lemma {:induction false} SameIdentitySamePairs(before: seq<Entry>, after: seq<Entry>)
    requires SameIdentity(before, after)
    ensures VendorPairs(after) == VendorPairs(before)
  {
    forall e | e in before ensures (Lower(e.vendor), e.pen) in VendorPairs(after) {
      var i :| 0 <= i < |before| && before[i] == e;
      assert Identity(after[i]) == Identity(before[i]) && after[i] in after;
    }
    forall e | e in after ensures (Lower(e.vendor), e.pen) in VendorPairs(before) {
      var i :| 0 <= i < |after| && after[i] == e;
      assert Identity(after[i]) == Identity(before[i]) && before[i] in before;
    }
  }

  lemma {:induction false} AppendScans(names: Names, entries: seq<Entry>, e: Entry, k: (string, string), w: string)
    ensures LastNamed(names, entries + [e], k) == if EntryName(names, e) == k then |entries|
            else LastNamed(names, entries, k)
    ensures WireScan(entries + [e], w) == WireScan(entries, w) + if e.wireKey == w then [|entries|] else []
    ensures CountMapped(entries + [e]) == CountMapped(entries) + if e.status != MISSING then 1 else 0
    ensures VendorPairs(entries + [e]) == VendorPairs(entries) + {(Lower(e.vendor), e.pen)}
  {
    assert (entries + [e])[..|entries|] == entries;
  }

  lemma {:induction false} AppendAnswers(names: Names, entries: seq<Entry>, e: Entry, key: PackIndexKey)
    ensures FirstAnswering(names, entries + [e], key)
         == if FirstAnswering(names, entries, key) < |entries| then FirstAnswering(names, entries, key)
            else if Answers(names, e, key) then |entries| else |entries| + 1
  {
    if entries != [] {
      assert (entries + [e])[1..] == entries[1..] + [e];
      AppendAnswers(names, entries[1..], e, key);
    }
  }

  lemma {:induction false} CountAfterUpdate(entries: seq<Entry>, i: nat, e: Entry)
    requires i < |entries|
    ensures CountMapped(entries[i := e]) + (if entries[i].status != MISSING then 1 else 0)
         == CountMapped(entries) + (if e.status != MISSING then 1 else 0)
    decreases |entries|
  {
    var n := |entries| - 1;
    if i < n {
      assert entries[i := e][..n] == entries[..n][i := e];
      CountAfterUpdate(entries[..n], i, e);
    } else {
      assert entries[i := e][..n] == entries[..n];
    }
  }
}

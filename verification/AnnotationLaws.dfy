/** What the entries of a finished registry contain, read off the source rows, the annotations and the
    functions of the profile passes (configs/attribute_registry.go). */
module AnnotationLaws {
  import opened Text
  import opened Sequences
  import opened Wrappers
  import opened Numbers
  import opened SemanticSets
  import opened RegistryModel

  const RUNTIME := "aegisnas-runtime"

  // ----- annotations

  function Named(names: Names, k: (string, string)): Entry -> bool {
    (e: Entry) => EntryName(names, e) == k
  }

  /** The annotations of one name, in order. */
  function AnnotationsOf(names: Names, annotations: seq<Entry>, k: (string, string)): seq<Entry> {
    Filter(Named(names, k), annotations)
  }

  /** The elements of all their semantics. */
  function SemanticsOf(annotations: seq<Entry>): set<string> {
    if annotations == [] then {}
    else SemanticsOf(annotations[..|annotations| - 1]) + SemanticKeys(annotations[|annotations| - 1].semantic)
  }

  /** What no annotation changes. */
  ghost predicate SameRest(a: Entry, b: Entry) {
    && a.source == b.source && a.key == b.key && a.wireKey == b.wireKey && a.vendor == b.vendor && a.pen == b.pen
    && a.attribute == b.attribute && a.number == b.number && a.oid == b.oid && a.wireType == b.wireType
    && a.family == b.family && a.functionality == b.functionality
  }

  ghost predicate SameDecoder(a: Entry, b: Entry) {
    a.decodeKind == b.decodeKind && a.decodeSemantic == b.decodeSemantic && a.decodeScale == b.decodeScale
  }

  /** A text has the elements of another one and some more, and keeps its first. */
  ghost predicate Collects(before: string, more: set<string>, after: string) {
    SemanticKeys(after) == SemanticKeys(before) + more && (First(before) != "" ==> First(after) == First(before))
  }

  /** Pack key, directions and decoder are those of the last annotation; semantics and the runtime tag
      were added to what was there, whose primary semantic stays; a missing entry became partial. */
  ghost predicate AnnotatedBy(base: Entry, annotations: seq<Entry>, e: Entry)
    requires annotations != []
  {
    && Takes(annotations[|annotations| - 1], base, e)
    && Gathers(base, SemanticsOf(annotations), {RUNTIME}, e)
  }

  ghost predicate Takes(last: Entry, base: Entry, e: Entry) {
    && e.packKey == last.packKey && e.directions == last.directions && SameDecoder(e, last)
    && e.status == (if base.status == MISSING then PARTIAL else base.status)
    && SameRest(base, e)
  }

  ghost predicate Gathers(base: Entry, semantics: set<string>, tags: set<string>, e: Entry) {
    Collects(base.semantic, semantics, e.semantic) && Collects(base.provenance, tags, e.provenance)
  }

  /** An annotation with a new name is the entry itself, with its keys and its missing fields filled in. */
  ghost predicate AddedBy(a: Entry, e: Entry) {
    && e.source == RUNTIME && e.key == RUNTIME + ":" + Decimal(a.pen) + ":" + Lower(a.attribute)
    && e.wireKey == WireKey(a.pen, a.number)
    && e.status == (if a.status == "" then PARTIAL else a.status)
    && e.provenance == (if a.provenance == "" then RUNTIME else a.provenance)
    && e.family == (if a.family == "" then "Vendor-specific/other" else a.family)
    && e.vendor == a.vendor && e.pen == a.pen && e.attribute == a.attribute && e.number == a.number && e.oid == a.oid
    && e.wireType == a.wireType && e.functionality == a.functionality
    && e.packKey == a.packKey && e.semantic == a.semantic && e.directions == a.directions && SameDecoder(e, a)
  }

  ghost predicate FromBase(base: Entry, annotations: seq<Entry>, e: Entry) {
    if annotations == [] then e == base else AnnotatedBy(base, annotations, e)
  }

  /** What a name stands for, given the row and the annotations of that name. */
  ghost predicate Stands(row: Option<Entry>, annotations: seq<Entry>, found: Option<Entry>) {
    match row
    case Some(base) => RowStands(base, annotations, found)
    case None => NewStands(annotations, found)
  }

  ghost predicate RowStands(base: Entry, annotations: seq<Entry>, found: Option<Entry>) {
    found.Some? && FromBase(base, annotations, found.value)
  }

  ghost predicate NewStands(annotations: seq<Entry>, found: Option<Entry>) {
    if annotations == [] then found.None?
    else found.Some? && AddedThen(annotations[0], annotations[1..], found.value)
  }

  /** The first annotation of a new name added an entry, and the others changed it. */
  ghost predicate AddedThen(first: Entry, others: seq<Entry>, e: Entry) {
    exists base :: AddedBy(first, base) && FromBase(base, others, e)
  }

  /** The entry a linear search finds under a name. */
  function Found(names: Names, entries: seq<Entry>, k: (string, string)): Option<Entry> {
    var i := LastNamed(names, entries, k);
    if i >= 0 then Some(entries[i]) else None
  }

  lemma {:induction false} CollectsMore(before: string, more: set<string>, mid: string, addition: string)
    requires Collects(before, more, mid)
    ensures Collects(before, more + SemanticKeys(addition), Merge(mid, addition))
  {
    MergeTokens(mid, addition);
    MergeKeepsFirst(mid, addition);
  }

  lemma {:induction false} CollectsNothing(text: string)
    ensures Collects(text, {}, text)
  {
  }

  lemma {:induction false} SemanticsOfSnoc(annotations: seq<Entry>, a: Entry)
    ensures SemanticsOf(annotations + [a]) == SemanticsOf(annotations) + SemanticKeys(a.semantic)
  {
    assert (annotations + [a])[..|annotations|] == annotations;
  }

  lemma {:induction false} GathersMore(base: Entry, semantics: set<string>, tags: set<string>, e: Entry, a: Entry)
    requires Gathers(base, semantics, tags, e)
    ensures Gathers(base, semantics + SemanticKeys(a.semantic), tags + {RUNTIME}, Annotate(e, a))
  {
    CollectsMore(base.semantic, semantics, e.semantic, a.semantic);
    RuntimeIsToken();
    CollectsTag(base.provenance, tags, e.provenance, RUNTIME);
  }

  lemma {:induction false} CollectsTag(before: string, more: set<string>, mid: string, tag: string)
    requires Collects(before, more, mid) && IsToken(tag) && Lower(tag) == tag
    ensures Collects(before, more + {tag}, Merge(mid, tag))
  {
    CollectsMore(before, more, mid, tag);
    SingleToken(tag);
  }

  lemma {:induction false} RuntimeIsToken()
    ensures IsToken(RUNTIME) && Lower(RUNTIME) == RUNTIME
  {
    assert RUNTIME[0] == 'a' && RUNTIME[|RUNTIME| - 1] == 'e';
  }

  lemma {:induction false} TakesLast(base: Entry, e: Entry, a: Entry)
    requires SameRest(base, e) && (e.status == base.status || (base.status == MISSING && e.status == PARTIAL))
    ensures Takes(a, base, Annotate(e, a))
  {
    assert PARTIAL[0] != MISSING[0];
  }

  lemma {:induction false} AnnotatedFirst(base: Entry, a: Entry)
    ensures AnnotatedBy(base, [a], Annotate(base, a))
  {
    TakesLast(base, base, a);
    SemanticsOfSnoc([], a);
    assert [] + [a] == [a];
    CollectsNothing(base.semantic);
    CollectsNothing(base.provenance);
    GathersMore(base, {}, {}, base, a);
    assert {} + SemanticKeys(a.semantic) == SemanticKeys(a.semantic) && {} + {RUNTIME} == {RUNTIME};
  }

  lemma {:induction false} AnnotatedLater(base: Entry, annotations: seq<Entry>, e: Entry, a: Entry)
    requires annotations != [] && AnnotatedBy(base, annotations, e)
    ensures AnnotatedBy(base, annotations + [a], Annotate(e, a))
  {
    TakesLast(base, e, a);
    SemanticsOfSnoc(annotations, a);
    GathersMore(base, SemanticsOf(annotations), {RUNTIME}, e, a);
    assert {RUNTIME} + {RUNTIME} == {RUNTIME};
  }

  lemma {:induction false} AnnotatedAgain(base: Entry, annotations: seq<Entry>, e: Entry, a: Entry)
    requires FromBase(base, annotations, e)
    ensures FromBase(base, annotations + [a], Annotate(e, a))
  {
    if annotations == [] {
      AnnotatedFirst(base, a);
      assert annotations + [a] == [a];
    } else {
      AnnotatedLater(base, annotations, e, a);
    }
  }

  /** What a search finds after one more annotation. */
  lemma {:induction false} FoundAfter(names: Names, entries: seq<Entry>, a: Entry, k: (string, string))
    ensures Found(names, Annotated(names, entries, a), k)
         == if EntryName(names, a) != k then Found(names, entries, k)
            else Next(Found(names, entries, k), a)
  {
    var i := LastNamed(names, entries, EntryName(names, a));
    var after := Annotated(names, entries, a);
    LastNamedFacts(names, entries, EntryName(names, a));
    LastNamedFacts(names, entries, k);
    if i >= 0 {
      SameIdentitySameScans(names, entries, after, k, "");
    } else {
      AppendScans(names, entries, NewRuntimeEntry(a), k, "");
    }
  }

  /** What one more annotation makes of what was found. */
  function Next(found: Option<Entry>, a: Entry): Option<Entry> {
    match found case Some(e) => Some(Annotate(e, a)) case None => Some(NewRuntimeEntry(a))
  }

  lemma {:induction false} StandsAfter(row: Option<Entry>, annotations: seq<Entry>, found: Option<Entry>, a: Entry)
    requires Stands(row, annotations, found)
    ensures Stands(row, annotations + [a], Next(found, a))
  {
    match row
    case Some(base) => AnnotatedAgain(base, annotations, found.value, a);
    case None => NewStandsAfter(annotations, found, a);
  }

  lemma {:induction false} NewStandsAfter(annotations: seq<Entry>, found: Option<Entry>, a: Entry)
    requires NewStands(annotations, found)
    ensures NewStands(annotations + [a], Next(found, a))
  {
    if annotations == [] {
      FirstOfName(a);
    } else {
      var first, others := annotations[0], annotations[1..];
      AddedThenAnnotated(first, others, found.value, a);
      ThenStands(first, others + [a], Annotate(found.value, a));
      assert annotations + [a] == [first] + (others + [a]);
    }
  }

  lemma {:induction false} ThenStands(first: Entry, others: seq<Entry>, e: Entry)
    requires AddedThen(first, others, e)
    ensures NewStands([first] + others, Some(e))
  {
    assert ([first] + others)[1..] == others;
  }

  lemma {:induction false} FirstOfName(a: Entry)
    ensures NewStands([] + [a], Some(NewRuntimeEntry(a)))
  {
    assert ([] + [a])[0] == a && ([] + [a])[1..] == [];
    NewIsAdded(a);
    assert FromBase(NewRuntimeEntry(a), [], NewRuntimeEntry(a));
  }

  lemma {:induction false} NewIsAdded(a: Entry)
    ensures AddedBy(a, NewRuntimeEntry(a))
  {
    assert RUNTIME + ":" == "aegisnas-runtime:";
  }

  lemma {:induction false} AddedThenAnnotated(first: Entry, others: seq<Entry>, e: Entry, a: Entry)
    requires AddedThen(first, others, e)
    ensures AddedThen(first, others + [a], Annotate(e, a))
  {
    var base :| AddedBy(first, base) && FromBase(base, others, e);
    AnnotatedAgain(base, others, e, a);
  }

  /** Under every name the annotated registry holds what the row and the annotations of that name say. */
  lemma {:induction false} NamesStand(names: Names, rows: seq<Entry>, annotations: seq<Entry>, k: (string, string))
    ensures Stands(Found(names, rows, k), AnnotationsOf(names, annotations, k),
                   Found(names, AnnotateAll(names, rows, annotations), k))
  {
    if annotations != [] {
      var init, a := annotations[..|annotations| - 1], annotations[|annotations| - 1];
      assert annotations == init + [a];
      NamesStand(names, rows, init, k);
      FilterConcat(Named(names, k), init, [a]);
      assert Filter(Named(names, k), [a]) == if EntryName(names, a) == k then [a] else [] by {
        assert [a][1..] == [];
      }
      FoundAfter(names, AnnotateAll(names, rows, init), a, k);
      var before := Found(names, AnnotateAll(names, rows, init), k);
      if EntryName(names, a) == k {
        StandsAfter(Found(names, rows, k), AnnotationsOf(names, init, k), before, a);
      } else {
        assert AnnotationsOf(names, init, k) + [] == AnnotationsOf(names, init, k);
      }
    }
  }

  function NameIn(names: Names): Entry -> (string, string) {
    (e: Entry) => EntryName(names, e)
  }

  /** The annotated registry has one entry per name: the rows in place, then the new names of the
      annotations, in order of first occurrence. */
  lemma {:induction false} NamesInOrder(names: Names, rows: seq<Entry>, annotations: seq<Entry>)
    requires UniqueNames(names, rows)
    ensures Mapped(NameIn(names), AnnotateAll(names, rows, annotations))
         == Mapped(NameIn(names), rows)
            + Distinct(Itself, Keys(Itself, Mapped(NameIn(names), rows)), Mapped(NameIn(names), annotations))
  {
    if annotations == [] {
      assert Mapped(NameIn(names), rows) + [] == Mapped(NameIn(names), rows);
    } else {
      var init, a := annotations[..|annotations| - 1], annotations[|annotations| - 1];
      assert annotations == init + [a];
      NamesInOrder(names, rows, init);
      NamesNext(names, rows, AnnotateAll(names, rows, init), init, a);
    }
  }

  lemma {:induction false} NamesNext(names: Names, rows: seq<Entry>, before: seq<Entry>, init: seq<Entry>, a: Entry)
    requires Mapped(NameIn(names), before)
          == Mapped(NameIn(names), rows)
             + Distinct(Itself, Keys(Itself, Mapped(NameIn(names), rows)), Mapped(NameIn(names), init))
    ensures Mapped(NameIn(names), Annotated(names, before, a))
         == Mapped(NameIn(names), rows)
            + Distinct(Itself, Keys(Itself, Mapped(NameIn(names), rows)), Mapped(NameIn(names), init + [a]))
  {
    MappedConcat(NameIn(names), init, [a]);
    assert Mapped(NameIn(names), [a]) == [EntryName(names, a)];
    ListGrows(Mapped(NameIn(names), rows), Mapped(NameIn(names), init), EntryName(names, a));
    NamesGrow(names, before, a);
  }

  lemma {:induction false} ListGrows(used: seq<(string, string)>, more: seq<(string, string)>, k: (string, string))
    ensures var seen := Keys(Itself, used);
            var all := used + Distinct(Itself, seen, more);
            used + Distinct(Itself, seen, more + [k]) == all + if k in all then [] else [k]
  {
    var seen := Keys(Itself, used);
    var chosen := Distinct(Itself, seen, more);
    DistinctConcat(Itself, seen, more, [k]);
    DistinctKeys(Itself, seen, more);
    ItselfKeys(used, k);
    ItselfKeys(more, k);
    ItselfKeys(chosen, k);
    assert [k][1..] == [];
    assert k in used + chosen <==> k in seen + Keys(Itself, more);
  }

  lemma {:induction false} NamesGrow(names: Names, entries: seq<Entry>, a: Entry)
    ensures var used, k := Mapped(NameIn(names), entries), EntryName(names, a);
            Mapped(NameIn(names), Annotated(names, entries, a)) == used + if k in used then [] else [k]
  {
    var used, k := Mapped(NameIn(names), entries), EntryName(names, a);
    var i, after := LastNamed(names, entries, k), Annotated(names, entries, a);
    LastNamedFacts(names, entries, k);
    if i >= 0 {
      assert used[i] == k;
      assert Mapped(NameIn(names), after) == used;
    } else {
      assert k !in used by {
        forall j | 0 <= j < |used| ensures used[j] != k {
          assert EntryName(names, entries[j]) != k;
        }
      }
      MappedConcat(NameIn(names), entries, [NewRuntimeEntry(a)]);
      assert Mapped(NameIn(names), [NewRuntimeEntry(a)]) == [k];
    }
  }

  // ----- profile passes

  /** What a pass does to an entry: nothing if it does not apply; else pack, directions, functionality and
      decoder are what its functions return, seeing the fields before them already changed, and semantics
      and provenance gained what the pass says. */
  ghost predicate PassedBy(p: Profile, before: Entry, after: Entry) {
    if !p.applies(before) then after == before
    else
      var texts := before.(packKey := after.packKey, semantic := after.semantic, provenance := after.provenance);
      var seen := if p.readsMerged then after.semantic else p.semantic(before);
      var directed := texts.(directions := after.directions);
      && after.packKey == p.pack(before)
      && Collects(before.semantic, SemanticKeys(p.semantic(before)), after.semantic)
      && Collects(before.provenance, SemanticKeys(p.tag), after.provenance)
      && after.directions == p.directions(texts, seen)
      && after.functionality == p.functionality(directed, seen)
      && DecodedBy(p, before, after, p.decoder(directed.(functionality := after.functionality), seen))
      && after.status == (if before.status == MISSING then PARTIAL else before.status)
      && after == before.(packKey := after.packKey, semantic := after.semantic, provenance := after.provenance,
                          directions := after.directions, functionality := after.functionality,
                          decodeKind := after.decodeKind, decodeSemantic := after.decodeSemantic,
                          decodeScale := after.decodeScale, status := after.status)
  }

  /** A decoder stays only when the pass keeps decoders and a mapped entry has one. */
  ghost predicate DecodedBy(p: Profile, before: Entry, after: Entry, d: Decoder) {
    if p.keepsDecoder && before.status != MISSING && !Blank(before.decodeKind) then SameDecoder(after, before)
    else after.decodeKind == d.kind && after.decodeSemantic == d.semantic && after.decodeScale == d.scale
  }

  lemma {:induction false} ProfilePasses(p: Profile, e: Entry)
    ensures PassedBy(p, e, ProfileEntry(p, e))
  {
    if p.applies(e) {
      CollectsNothing(e.semantic);
      CollectsNothing(e.provenance);
      CollectsMore(e.semantic, {}, e.semantic, p.semantic(e));
      CollectsMore(e.provenance, {}, e.provenance, p.tag);
    }
  }

  /** Each pass does that to the entry in every place, and no other. */
  lemma {:induction false} PassesInOrder(entries: seq<Entry>, profiles: seq<Profile>, k: nat, i: nat)
    requires k < |profiles| && i < |entries|
    ensures |ProfileAll(entries, profiles[..k])| == |ProfileAll(entries, profiles[..k + 1])| == |entries|
    ensures PassedBy(profiles[k], ProfileAll(entries, profiles[..k])[i], ProfileAll(entries, profiles[..k + 1])[i])
  {
    ProfileAllLength(entries, profiles[..k]);
    assert profiles[..k + 1][..k] == profiles[..k];
    ProfilePasses(profiles[k], ProfileAll(entries, profiles[..k])[i]);
  }

  lemma {:induction false} ProfileAllLength(entries: seq<Entry>, profiles: seq<Profile>)
    ensures |ProfileAll(entries, profiles)| == |entries|
  {
    if profiles != [] {
      ProfileAllLength(entries, profiles[..|profiles| - 1]);
    }
  }

  /** So an entry that no pass applies to is in the finished registry what the annotations made it. */
  lemma {:induction false} UntouchedByPasses(entries: seq<Entry>, profiles: seq<Profile>, i: nat)
    requires i < |entries| && forall p <- profiles :: !p.applies(entries[i])
    ensures |ProfileAll(entries, profiles)| == |entries| && ProfileAll(entries, profiles)[i] == entries[i]
  {
    ProfileAllLength(entries, profiles);
    if profiles != [] {
      var n := |profiles| - 1;
      assert profiles[n] in profiles && forall p <- profiles[..n] :: p in profiles;
      UntouchedByPasses(entries, profiles[..n], i);
    }
  }

  // ----- finished registries

  lemma {:induction false} SameIdentityPasses(entries: seq<Entry>, profiles: seq<Profile>)
    ensures SameIdentity(entries, ProfileAll(entries, profiles))
  {
    if profiles != [] {
      var n := |profiles| - 1;
      var before := ProfileAll(entries, profiles[..n]);
      SameIdentityPasses(entries, profiles[..n]);
      forall i | 0 <= i < |before| ensures Identity(ProfileEntry(profiles[n], before[i])) == Identity(before[i]) {
        ProfilePasses(profiles[n], before[i]);
      }
    }
  }

  lemma {:induction false} SemanticsIncluded(annotations: seq<Entry>, a: Entry)
    requires a in annotations
    ensures SemanticKeys(a.semantic) <= SemanticsOf(annotations)
  {
    var init, last := annotations[..|annotations| - 1], annotations[|annotations| - 1];
    assert annotations == init + [last];
    if a in init {
      SemanticsIncluded(init, a);
    }
  }

  /** An entry decided by annotations: pack key, directions and decoder of the last, semantics of all. */
  ghost predicate Decided(annotations: seq<Entry>, e: Entry)
    requires annotations != []
  {
    var last := annotations[|annotations| - 1];
    && e.packKey == last.packKey && e.directions == last.directions && SameDecoder(e, last)
    && forall a <- annotations :: SemanticKeys(a.semantic) <= SemanticKeys(e.semantic)
  }

  /** Under the name of any annotations the annotated registry has one entry, with the pack key, the
      directions and the decoder of the last of them and the semantics of them all. */
  lemma {:induction false} AnnotationsDecide(names: Names, rows: seq<Entry>, annotations: seq<Entry>,
                                             k: (string, string))
    requires AnnotationsOf(names, annotations, k) != []
    ensures var found := Found(names, AnnotateAll(names, rows, annotations), k);
            found.Some? && Decided(AnnotationsOf(names, annotations, k), found.value)
  {
    NamesStand(names, rows, annotations, k);
    StandsDecides(Found(names, rows, k), AnnotationsOf(names, annotations, k),
                  Found(names, AnnotateAll(names, rows, annotations), k));
  }

  lemma {:induction false} StandsDecides(row: Option<Entry>, annotations: seq<Entry>, found: Option<Entry>)
    requires annotations != [] && Stands(row, annotations, found)
    ensures found.Some? && Decided(annotations, found.value)
  {
    match row
    case Some(base) => BaseDecides(base, annotations, found.value);
    case None =>
      NewDecides(annotations[0], annotations[1..], found.value);
      assert [annotations[0]] + annotations[1..] == annotations;
  }

  lemma {:induction false} NewDecides(first: Entry, others: seq<Entry>, e: Entry)
    requires AddedThen(first, others, e)
    ensures Decided([first] + others, e)
  {
    var base :| AddedBy(first, base) && FromBase(base, others, e);
    var all := [first] + others;
    if others != [] {
      BaseDecides(base, others, e);
      assert all[|all| - 1] == others[|others| - 1];
    }
    forall a | a in all ensures SemanticKeys(a.semantic) <= SemanticKeys(e.semantic) {
      assert a == first || a in others;
    }
  }

  lemma {:induction false} BaseDecides(base: Entry, annotations: seq<Entry>, e: Entry)
    requires annotations != [] && AnnotatedBy(base, annotations, e)
    ensures Decided(annotations, e) && SemanticKeys(base.semantic) <= SemanticKeys(e.semantic)
  {
    forall a | a in annotations ensures SemanticKeys(a.semantic) <= SemanticKeys(e.semantic) {
      SemanticsIncluded(annotations, a);
    }
  }

  /** An annotated entry that no pass applies to is found unchanged in the finished registry. */
  lemma {:induction false} AnnotatedStays(names: Names, rows: seq<Entry>, annotations: seq<Entry>,
                                          profiles: seq<Profile>, k: (string, string))
    requires var found := Found(names, AnnotateAll(names, rows, annotations), k);
             found.Some? && forall p <- profiles :: !p.applies(found.value)
    ensures Found(names, Final(names, rows, annotations, profiles), k)
         == Found(names, AnnotateAll(names, rows, annotations), k)
  {
    var entries := AnnotateAll(names, rows, annotations);
    SameIdentityPasses(entries, profiles);
    SameIdentitySameScans(names, entries, ProfileAll(entries, profiles), k, "");
    UntouchedByPasses(entries, profiles, LastNamed(names, entries, k));
  }
}

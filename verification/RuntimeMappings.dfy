/** The runtime decoder table projected from the registry (configs/attribute_registry.go), with vendor
    types of one octet as in section 5.26 of RFC 2865, and the evidence set read from it
    (configs/compatibility_evidence.go). */
module RuntimeMappings {
  import opened Text
  import opened Sequences
  import opened Numbers
  import opened SemanticSets
  import opened RegistryModel

  datatype RuntimeMapping = RuntimeMapping(packKey: string, vendorID: nat, octet: nat, attribute: string,
                                           semantic: string, kind: string, scale: int)

  predicate Eligible(e: Entry) {
    e.decodeKind != "" && 1 <= e.number <= 255
  }

  function RuntimeSemantic(e: Entry): string {
    if e.decodeSemantic == "" then First(e.semantic) else e.decodeSemantic
  }

  function EntryKey(e: Entry): (string, nat, nat, string) {
    (e.packKey, e.pen, e.number, RuntimeSemantic(e))
  }

  function MappingKey(m: RuntimeMapping): (string, nat, nat, string) {
    (m.packKey, m.vendorID, m.octet, m.semantic)
  }

  function ToMapping(e: Entry): RuntimeMapping {
    RuntimeMapping(e.packKey, e.pen, ToByte(e.number), e.attribute, RuntimeSemantic(e), e.decodeKind, e.decodeScale)
  }

  function ToMappings(entries: seq<Entry>): seq<RuntimeMapping> {
    Mapped(ToMapping, entries)
  }

  // ----- order

  /** Position of a pack among the known packs; unknown packs read as 0, as a Go map does. */
  function Position(order: map<string, nat>, pack: string): nat {
    if pack in order then order[pack] else 0
  }

  /** The comparison of the stable sort: known packs first, then pack position, type and attribute. */
  predicate Before(order: map<string, nat>, a: RuntimeMapping, b: RuntimeMapping) {
    if (a.packKey in order) != (b.packKey in order) then a.packKey in order
    else if Position(order, a.packKey) != Position(order, b.packKey)
      then Position(order, a.packKey) < Position(order, b.packKey)
    else if a.octet != b.octet then a.octet < b.octet
    else Less(a.attribute, b.attribute)
  }

  function NotAfter(order: map<string, nat>): (RuntimeMapping, RuntimeMapping) -> bool {
    (a: RuntimeMapping, b: RuntimeMapping) => !Before(order, b, a)
  }

  lemma {:induction false} NotAfterIsPreorder(order: map<string, nat>)
    ensures TotalPreorder(NotAfter(order))
  {
    var le := NotAfter(order);
    forall x, y ensures le(x, y) || le(y, x) {
      if Less(x.attribute, y.attribute) {
        LessAsymmetric(x.attribute, y.attribute);
      }
    }
    forall x, y, z | le(x, y) && le(y, z) ensures le(x, z) {
      NotLessTransitive(x.attribute, y.attribute, z.attribute);
    }
  }

  // ----- the table

  /** The value of `RuntimeMappings`: first eligible entry per key, in a stable order. */
  function Table(order: map<string, nat>, entries: seq<Entry>): seq<RuntimeMapping> {
    StableSort(NotAfter(order), ToMappings(Distinct(EntryKey, {}, Filter(Eligible, entries))))
  }

  /** `RuntimeMappings` as it runs. */
  method BuildRuntimeMappings(order: map<string, nat>, entries: seq<Entry>) returns (out: seq<RuntimeMapping>)
    ensures out == Table(order, entries)
  {
    out := CollectFirsts(Eligible, EntryKey, ToMapping, entries);
    out := StableSort(NotAfter(order), out);
  }

  /** Position of the first eligible entry with a key. */
  ghost predicate FirstWithKey(entries: seq<Entry>, i: nat, k: (string, nat, nat, string)) {
    && i < |entries| && Eligible(entries[i]) && EntryKey(entries[i]) == k
    && forall j :: 0 <= j < i ==> !(Eligible(entries[j]) && EntryKey(entries[j]) == k)
  }

  /** First-wins de-duplication picks exactly the first eligible entry of each key. */
  lemma {:induction false} DistinctPicksFirst(seen: set<(string, nat, nat, string)>, entries: seq<Entry>, e: Entry)
    requires e in Distinct(EntryKey, seen, Filter(Eligible, entries))
    ensures exists i: nat :: FirstWithKey(entries, i, EntryKey(e)) && entries[i] == e
    decreases |entries|
  {
    assert entries == [entries[0]] + entries[1..];
    var head, rest := entries[0], Filter(Eligible, entries[1..]);
    if Eligible(head) {
      DistinctCons(EntryKey, seen, head, rest);
      if EntryKey(head) !in seen && e == head {
        assert FirstWithKey(entries, 0, EntryKey(e));
        return;
      }
      var now := if EntryKey(head) in seen then seen else seen + {EntryKey(head)};
      DistinctKeys(EntryKey, now, rest);
      DistinctPicksFirst(now, entries[1..], e);
      var i: nat :| FirstWithKey(entries[1..], i, EntryKey(e)) && entries[1..][i] == e;
      assert FirstWithKey(entries, i + 1, EntryKey(e));
    } else {
      assert [] + rest == rest;
      DistinctPicksFirst(seen, entries[1..], e);
      var i: nat :| FirstWithKey(entries[1..], i, EntryKey(e)) && entries[1..][i] == e;
      assert FirstWithKey(entries, i + 1, EntryKey(e));
    }
  }

  lemma {:induction false} TableMembers(order: map<string, nat>, entries: seq<Entry>, m: RuntimeMapping)
    ensures m in Table(order, entries) <==> exists e <- Distinct(EntryKey, {}, Filter(Eligible, entries)) ::
            m == ToMapping(e)
  {
    var chosen := Distinct(EntryKey, {}, Filter(Eligible, entries));
    NotAfterIsPreorder(order);
    StableSortFacts(NotAfter(order), ToMappings(chosen));
    assert m in Table(order, entries) <==> m in multiset(Table(order, entries));
    assert m in ToMappings(chosen) <==> m in multiset(ToMappings(chosen));
    if m in ToMappings(chosen) {
      var i :| 0 <= i < |chosen| && ToMappings(chosen)[i] == m;
      assert chosen[i] in chosen && m == ToMapping(chosen[i]);
    }
    if e :| e in chosen && m == ToMapping(e) {
      var i :| 0 <= i < |chosen| && chosen[i] == e;
      assert ToMappings(chosen)[i] == m;
    }
  }

  /** Every mapping is that of the first eligible entry with its key, and its one-octet type is the
      entry's number without loss, in 1..255. */
  lemma {:induction false} MappingsAreFirsts(order: map<string, nat>, entries: seq<Entry>, m: RuntimeMapping)
    requires m in Table(order, entries)
    ensures exists i: nat ::
            FirstWithKey(entries, i, MappingKey(m)) && m == ToMapping(entries[i]) && m.octet == entries[i].number
    ensures 1 <= m.octet <= 255
  {
    TableMembers(order, entries, m);
    var e :| e in Distinct(EntryKey, {}, Filter(Eligible, entries)) && m == ToMapping(e);
    DistinctPicksFirst({}, entries, e);
    var i: nat :| FirstWithKey(entries, i, EntryKey(e)) && entries[i] == e;
    assert MappingKey(m) == EntryKey(e);
  }

  /** Every eligible entry is represented. */
  lemma {:induction false} EligibleIsMapped(order: map<string, nat>, entries: seq<Entry>, e: Entry)
    requires e in entries && Eligible(e)
    ensures exists m <- Table(order, entries) :: MappingKey(m) == EntryKey(e)
  {
    FirstsCover(Eligible, EntryKey, entries, e);
    var c :| c in Distinct(EntryKey, {}, Filter(Eligible, entries)) && Eligible(c) && EntryKey(c) == EntryKey(e);
    TableMembers(order, entries, ToMapping(c));
    assert MappingKey(ToMapping(c)) == EntryKey(e);
  }

  /** Two positions of the table never share a key, and the table is in order. */
  lemma {:induction false} TableUniqueAndSorted(order: map<string, nat>, entries: seq<Entry>)
    ensures UniqueKeys(MappingKey, Table(order, entries))
    ensures SortedBy(NotAfter(order), Table(order, entries))
  {
    var chosen := Distinct(EntryKey, {}, Filter(Eligible, entries));
    var mapped := ToMappings(chosen);
    NotAfterIsPreorder(order);
    StableSortFacts(NotAfter(order), mapped);
    DistinctKeys(EntryKey, {}, Filter(Eligible, entries));
    FilterMembers(Eligible, entries);
    forall i | 0 <= i < |mapped| ensures MappingKey(mapped[i]) == EntryKey(chosen[i]) {
      assert chosen[i] in chosen;
    }
    assert UniqueKeys(MappingKey, mapped);
    UniqueKeysPermute(MappingKey, mapped, Table(order, entries));
  }

  /** What a mapping of the table says, read off an entry. */
  ghost predicate SaysMapping(e: Entry, m: RuntimeMapping) {
    && e.decodeKind != "" && 1 <= e.number <= 255
    && m.packKey == e.packKey && m.vendorID == e.pen && m.octet == e.number && m.attribute == e.attribute
    && m.kind == e.decodeKind && m.scale == e.decodeScale && SaysSemantic(e, m.semantic)
  }

  /** The decoder's semantic, or else the primary one of the entry. */
  ghost predicate SaysSemantic(e: Entry, semantic: string) {
    semantic == if e.decodeSemantic != "" then e.decodeSemantic else First(e.semantic)
  }

  /** Every mapping says what the first entry says that has a decoder, a one-octet number and the mapping's
      pack, number and semantic. */
  lemma {:induction false} MappingsSay(order: map<string, nat>, entries: seq<Entry>, m: RuntimeMapping)
    requires m in Table(order, entries)
    ensures exists i: nat :: i < |entries| && SaysMapping(entries[i], m) && NoneBefore(entries, i, m)
  {
    MappingsAreFirsts(order, entries, m);
    var i: nat :| FirstWithKey(entries, i, MappingKey(m)) && m == ToMapping(entries[i]) && m.octet == entries[i].number;
    assert SaysMapping(entries[i], m);
  }

  /** No earlier entry has a decoder, a one-octet number and the mapping's pack, number and semantic. */
  ghost predicate NoneBefore(entries: seq<Entry>, i: nat, m: RuntimeMapping)
    requires i <= |entries|
  {
    forall j :: 0 <= j < i && entries[j].decodeKind != "" && 1 <= entries[j].number <= 255 ==>
      !(entries[j].packKey == m.packKey && entries[j].pen == m.vendorID && entries[j].number == m.octet
        && SaysSemantic(entries[j], m.semantic))
  }

  // ----- the evidence set

  function EvidenceKey(normalizePack: string -> string, pack: string, pen: nat, number: nat, semantic: string)
    : (string, nat, nat, string)
  {
    (normalizePack(pack), pen, number, Lower(Trim(semantic)))
  }

  /** `runtimeEvidenceByMapping`. */
  function RuntimeEvidence(normalizePack: string -> string, table: seq<RuntimeMapping>): set<(string, nat, nat,
      string)> {
    set m | m in table :: EvidenceKey(normalizePack, m.packKey, m.vendorID, m.octet, m.semantic)
  }

  /** Some registry entry decodes this pack, number and semantic. */
  predicate Decodes(normalizePack: string -> string, e: Entry, pack: string, pen: nat, number: nat, semantic: string) {
    && Eligible(e) && normalizePack(e.packKey) == normalizePack(pack) && e.pen == pen && e.number == number
    && Lower(Trim(RuntimeSemantic(e))) == Lower(Trim(semantic))
  }

  /** The evidence set holds a key exactly when a linear scan of the registry finds a decoder. */
  lemma {:induction false} EvidenceExactly(normalizePack: string -> string, order: map<string, nat>,
                                           entries: seq<Entry>,
                        pack: string, pen: nat, number: nat, semantic: string)
    ensures EvidenceKey(normalizePack, pack, pen, number, semantic) in RuntimeEvidence(normalizePack,
              Table(order, entries))
       <==> exists e <- entries :: Decodes(normalizePack, e, pack, pen, number, semantic)
  {
    var table := Table(order, entries);
    var key := EvidenceKey(normalizePack, pack, pen, number, semantic);
    if key in RuntimeEvidence(normalizePack, table) {
      var m :| m in table && EvidenceKey(normalizePack, m.packKey, m.vendorID, m.octet, m.semantic) == key;
      MappingsAreFirsts(order, entries, m);
      var i: nat :| FirstWithKey(entries, i, MappingKey(m)) && m == ToMapping(entries[i])
        && m.octet == entries[i].number;
      assert entries[i] in entries && Decodes(normalizePack, entries[i], pack, pen, number, semantic);
    }
    if e :| e in entries && Decodes(normalizePack, e, pack, pen, number, semantic) {
      EligibleIsMapped(order, entries, e);
      var m :| m in table && MappingKey(m) == EntryKey(e);
      assert EvidenceKey(normalizePack, m.packKey, m.vendorID, m.octet, m.semantic) == key;
    }
  }
}

/** The attribute registry as it is built: entries and three indexes changed in place
    (configs/attribute_registry.go). At every point of every construction the indexes agree with linear
    searches and the running count with the entries. */
module Registry {
  import opened Text
  import opened Sequences
  import opened Wrappers
  import opened Numbers
  import opened SemanticSets
  import opened RegistryModel
  import opened Packs

  // ----- the indexes agree with linear searches

  function NamePosition(byName: map<(string, string), nat>, k: (string, string)): int {
    if k in byName then byName[k] else -1
  }

  ghost predicate NamesIndexed(names: Names, entries: seq<Entry>, byName: map<(string, string), nat>) {
    forall k :: NamePosition(byName, k) == LastNamed(names, entries, k)
  }

  function WirePositions(byWire: map<string, seq<nat>>, w: string): seq<nat> {
    if w in byWire then byWire[w] else []
  }

  ghost predicate WiresIndexed(entries: seq<Entry>, byWire: map<string, seq<nat>>) {
    forall w :: WirePositions(byWire, w) == WireScan(entries, w)
  }

  function PackPosition(byPack: map<PackIndexKey, nat>, key: PackIndexKey, absent: nat): nat {
    if key in byPack then byPack[key] else absent
  }

  ghost predicate PacksIndexed(names: Names, entries: seq<Entry>, byPack: map<PackIndexKey, nat>) {
    && (forall key :: PackPosition(byPack, key, |entries|) == FirstAnswering(names, entries, key))
    && (forall key <- byPack :: byPack[key] < |entries|)
  }

  lemma {:induction false} NamesAfterAppend(names: Names, entries: seq<Entry>, byName: map<(string, string), nat>,
                                            e: Entry)
    requires NamesIndexed(names, entries, byName)
    ensures NamesIndexed(names, entries + [e], byName[EntryName(names, e) := |entries|])
  {
    var after := byName[EntryName(names, e) := |entries|];
    forall k ensures NamePosition(after, k) == LastNamed(names, entries + [e], k) {
      AppendScans(names, entries, e, k, "");
      assert NamePosition(byName, k) == LastNamed(names, entries, k);
    }
  }

  lemma {:induction false} WiresAfterAppend(names: Names, entries: seq<Entry>, byWire: map<string, seq<nat>>, e: Entry)
    requires WiresIndexed(entries, byWire)
    ensures WiresIndexed(entries + [e], byWire[e.wireKey := WirePositions(byWire, e.wireKey) + [|entries|]])
  {
    var after := byWire[e.wireKey := WirePositions(byWire, e.wireKey) + [|entries|]];
    forall w ensures WirePositions(after, w) == WireScan(entries + [e], w) {
      AppendScans(names, entries, e, EntryName(names, e), w);
      assert WirePositions(byWire, w) == WireScan(entries, w);
    }
  }

  /** First-wins filing of the keys of one entry. */
  ghost predicate Filed(before: map<PackIndexKey, nat>, after: map<PackIndexKey, nat>, keys: seq<PackIndexKey>,
                        idx: nat) {
    && (forall k :: k in after <==> k in before || k in keys)
    && (forall k <- after :: after[k] == if k in before then before[k] else idx)
  }

  lemma {:induction false} FiledThen(a: map<PackIndexKey, nat>, b: map<PackIndexKey, nat>, c: map<PackIndexKey, nat>,
                  first: seq<PackIndexKey>, second: seq<PackIndexKey>, both: seq<PackIndexKey>, idx: nat)
    requires Filed(a, b, first, idx) && Filed(b, c, second, idx) && forall k :: k in both <==> k in first || k in second
    ensures Filed(a, c, both, idx)
  {
  }

  lemma {:induction false} PacksAfterAppend(names: Names, entries: seq<Entry>, before: map<PackIndexKey, nat>,
                                            after: map<PackIndexKey, nat>, e: Entry)
    requires PacksIndexed(names, entries, before) && Filed(before, after, IndexKeys(names, e), |entries|)
    ensures PacksIndexed(names, entries + [e], after)
  {
    forall key ensures PackPosition(after, key, |entries| + 1) == FirstAnswering(names, entries + [e], key) {
      AppendAnswers(names, entries, e, key);
      IndexKeysMean(names, e, key);
      assert PackPosition(before, key, |entries|) == FirstAnswering(names, entries, key);
    }
  }

  /** The three indexes agree with the entries, and the running count with their statuses. */
  ghost predicate Indexed(names: Names, entries: seq<Entry>, byName: map<(string, string), nat>,
                          byWire: map<string, seq<nat>>, byPack: map<PackIndexKey, nat>, mapped: nat)
  {
    && NamesIndexed(names, entries, byName)
    && WiresIndexed(entries, byWire)
    && PacksIndexed(names, entries, byPack)
    && mapped == CountMapped(entries)
  }

  lemma {:induction false} IndexedAfterAppend(names: Names, entries: seq<Entry>, byName: map<(string, string), nat>,
                                              byWire: map<string, seq<nat>>, byPack: map<PackIndexKey, nat>,
                                              mapped: nat, newPack: map<PackIndexKey, nat>, e: Entry)
    requires Indexed(names, entries, byName, byWire, byPack, mapped)
    requires Filed(byPack, newPack, IndexKeys(names, e), |entries|)
    ensures Indexed(names, entries + [e], byName[EntryName(names, e) := |entries|],
                    byWire[e.wireKey := WirePositions(byWire, e.wireKey) + [|entries|]], newPack,
                    if e.status != MISSING then mapped + 1 else mapped)
  {
    NamesAfterAppend(names, entries, byName, e);
    WiresAfterAppend(names, entries, byWire, e);
    PacksAfterAppend(names, entries, byPack, newPack, e);
    AppendScans(names, entries, e, EntryName(names, e), "");
  }

  lemma {:induction false} IndexesSurviveUpdate(names: Names, before: seq<Entry>, after: seq<Entry>,
                                                byName: map<(string, string), nat>, byWire: map<string, seq<nat>>,
                                                byPack: map<PackIndexKey, nat>)
    requires SameIdentity(before, after)
    requires NamesIndexed(names, before, byName) && WiresIndexed(before, byWire) && PacksIndexed(names, before, byPack)
    ensures NamesIndexed(names, after, byName) && WiresIndexed(after, byWire) && PacksIndexed(names, after, byPack)
  {
    forall k ensures NamePosition(byName, k) == LastNamed(names, after, k) {
      SameIdentitySameScans(names, before, after, k, "");
    }
    forall w ensures WirePositions(byWire, w) == WireScan(after, w) {
      SameIdentitySameScans(names, before, after, ("", ""), w);
    }
    forall key ensures PackPosition(byPack, key, |after|) == FirstAnswering(names, after, key) {
      SameIdentitySameAnswers(names, before, after, key);
    }
  }

  lemma {:induction false} IndexedAfterRewrite(names: Names, entries: seq<Entry>, byName: map<(string, string), nat>,
                                               byWire: map<string, seq<nat>>,
                            byPack: map<PackIndexKey, nat>, mapped: nat, idx: nat, e: Entry)
    requires Indexed(names, entries, byName, byWire, byPack, mapped) && idx < |entries| && Evolves(entries[idx], e)
    ensures SameIdentity(entries, entries[idx := e])
    ensures Indexed(names, entries[idx := e], byName, byWire, byPack, if entries[idx].status == MISSING
                    && e.status != MISSING then mapped + 1 else mapped)
  {
    CountAfterUpdate(entries, idx, e);
    IndexesSurviveUpdate(names, entries, entries[idx := e], byName, byWire, byPack);
  }

  lemma {:induction false} KeysForAllSnoc(pen: nat, vendor: string, candidates: seq<string>, n: nat)
    requires n < |candidates|
    ensures forall k :: k in KeysForAll(pen, vendor, candidates[..n + 1]) <==>
            k in KeysForAll(pen, vendor, candidates[..n]) || k in KeysFor(pen, vendor, candidates[n])
  {
    forall k ensures k in KeysForAll(pen, vendor, candidates[..n + 1]) <==>
      k in KeysForAll(pen, vendor, candidates[..n]) || k in KeysFor(pen, vendor, candidates[n]) {
      KeysForAllMembers(pen, vendor, candidates[..n + 1], k);
      KeysForAllMembers(pen, vendor, candidates[..n], k);
      assert forall c :: c in candidates[..n + 1] <==> c in candidates[..n] || c == candidates[n];
    }
  }

  // ----- naive searches

  ghost function NaiveName(names: Names, entries: seq<Entry>, vendor: string, attribute: string): Option<Entry> {
    var i := LastNamed(names, entries, NameKey(names, vendor, attribute));
    if i >= 0 then Some(entries[i]) else None
  }

  ghost function NaiveAnswer(names: Names, entries: seq<Entry>, key: PackIndexKey): Option<Entry> {
    var i := FirstAnswering(names, entries, key);
    if i < |entries| then Some(entries[i]) else None
  }

  /** The attribute name a pack lookup searches for. */
  function PackAttribute(names: Names, pack: Pack, attribute: string): string {
    Lower(Trim(names.attribute(pack.vendorName, attribute)))
  }

  /** A pack attribute is looked for by name, then among the entries of its number, then among
      those of its vendor. */
  ghost function NaivePack(names: Names, entries: seq<Entry>, pack: Pack, attribute: string): Option<Entry> {
    var a := PackAttribute(names, pack, attribute);
    var byName := NaiveName(names, entries, pack.vendorName, a);
    var byPEN := if pack.vendorID > 0 then NaiveAnswer(names, entries, ByPEN(ToUint32(pack.vendorID), Lower(Trim(a))))
      else None;
    var vendor := Lower(Trim(names.vendor(pack.vendorName)));
    if byName.Some? then byName
    else if byPEN.Some? then byPEN
    else if vendor != "" then NaiveAnswer(names, entries, ByVendor(Lower(Trim(vendor)), Lower(Trim(a))))
    else None
  }

  /** What an accepted mapping has: an entry with its semantic and all of its directions. */
  ghost predicate Covered(names: Names, entries: seq<Entry>, pack: Pack, m: Mapping) {
    var found := NaivePack(names, entries, pack, m.attribute);
    && found.Some?
    && SemanticContains(found.value.semantic, m.semantic)
    && forall d <- Split(m.direction, ',') :: Blank(d) || Lower(Trim(d)) in found.value.directions
  }

  /** The mappings the validator looks at. */
  predicate Checked(normalizePack: string -> string, pack: Pack, m: Mapping) {
    && normalizePack(pack.key) != STANDARD && normalizePack(pack.key) != AEGISNAS
    && !EqualFold(m.direction, "controller_api") && EqualFold(m.state, "implemented")
  }

  class AttributeRegistry {
    const names: Names
    var entries: seq<Entry>
    var byName: map<(string, string), nat>
    var byWire: map<string, seq<nat>>
    var byPackAttribute: map<PackIndexKey, nat>
    var mappedCount: nat

    ghost predicate Valid()
      reads this
    {
      Indexed(names, entries, byName, byWire, byPackAttribute, mappedCount)
    }

    constructor (names: Names)
      ensures Valid() && entries == [] && this.names == names
    {
      this.names := names;
      entries, mappedCount := [], 0;
      byName, byWire, byPackAttribute := map[], map[], map[];
    }

    /** Files an entry under the keys of one candidate name. */
    method FileCandidate(pen: nat, vendor: string, candidate: string, idx: nat)
      modifies this`byPackAttribute
      ensures Filed(old(byPackAttribute), byPackAttribute, KeysFor(pen, vendor, candidate), idx)
    {
      var penKey := ByPEN(pen, Lower(Trim(candidate)));
      if pen > 0 && penKey !in byPackAttribute {
        byPackAttribute := byPackAttribute[penKey := idx];
      }
      var vendorKey := ByVendor(Lower(Trim(vendor)), Lower(Trim(candidate)));
      if vendor != "" && vendorKey !in byPackAttribute {
        byPackAttribute := byPackAttribute[vendorKey := idx];
      }
    }

    /** `addPackAttributeIndex`: an existing key keeps its entry. */
    method AddPackAttributeIndex(e: Entry, idx: nat)
      modifies this`byPackAttribute
      ensures Filed(old(byPackAttribute), byPackAttribute, IndexKeys(names, e), idx)
    {
      var vendor := FoldedVendor(names, e);
      var candidates := Candidates(FoldedAttribute(names, e));
      for n := 0 to |candidates|
        invariant Filed(old(byPackAttribute), byPackAttribute, KeysForAll(e.pen, vendor, candidates[..n]), idx)
      {
        ghost var before := byPackAttribute;
        FileCandidate(e.pen, vendor, candidates[n], idx);
        KeysForAllSnoc(e.pen, vendor, candidates, n);
        FiledThen(old(byPackAttribute), before, byPackAttribute, KeysForAll(e.pen, vendor, candidates[..n]),
                  KeysFor(e.pen, vendor, candidates[n]), KeysForAll(e.pen, vendor, candidates[..n + 1]), idx);
      }
      assert candidates[..|candidates|] == candidates;
    }

    /** `addEntry`. */
    method AddEntry(e: Entry)
      requires Valid()
      modifies this
      ensures Valid() && entries == old(entries) + [e]
    {
      var idx := |entries|;
      AddPackAttributeIndex(e, idx);
      IndexedAfterAppend(names, entries, byName, byWire, old(byPackAttribute), mappedCount, byPackAttribute, e);
      entries := entries + [e];
      byName := byName[EntryName(names, e) := idx];
      byWire := byWire[e.wireKey := WirePositions(byWire, e.wireKey) + [idx]];
      if e.status != MISSING {
        mappedCount := mappedCount + 1;
      }
    }

    /** An entry is rewritten in place, keeping what the indexes are built from. */
    method Rewrite(idx: nat, e: Entry)
      requires Valid() && idx < |entries| && Evolves(entries[idx], e)
      modifies this`entries, this`mappedCount
      ensures Valid() && entries == old(entries)[idx := e]
    {
      IndexedAfterRewrite(names, entries, byName, byWire, byPackAttribute, mappedCount, idx, e);
      if entries[idx].status == MISSING && e.status != MISSING {
        mappedCount := mappedCount + 1;
      }
      entries := entries[idx := e];
    }

    /** An annotation whose name is known is merged into the entry of that name. */
    method MergeAnnotation(idx: nat, a: Entry)
      requires Valid() && idx < |entries|
      modifies this`entries, this`mappedCount
      ensures Valid() && SameIdentity(old(entries), entries) && RegistryEvolves(old(entries), entries)
      ensures entries == old(entries)[idx := Annotate(old(entries)[idx], a)]
    {
      AnnotateEvolves(entries[idx], a);
      EvolvesSelf(entries);
      Rewrite(idx, Annotate(entries[idx], a));
      assert SameIdentity(old(entries), entries);
    }

    /** An annotation whose name is new becomes an entry. */
    method AddAnnotation(a: Entry)
      requires Valid() && UniqueNames(names, entries) && LastNamed(names, entries, EntryName(names, a)) < 0
      modifies this
      ensures Valid() && UniqueNames(names, entries) && RegistryEvolves(old(entries), entries)
      ensures entries == old(entries) + [NewRuntimeEntry(a)]
    {
      NewNameStaysUnique(names, entries, NewRuntimeEntry(a));
      EvolvesSelf(entries);
      AddEntry(NewRuntimeEntry(a));
    }

    /** One runtime annotation: merged into the entry of its name, or added as a new entry. */
    method ApplyAnnotation(a: Entry, vendors: set<(string, nat)>) returns (after: set<(string, nat)>)
      requires Valid() && UniqueNames(names, entries) && vendors == VendorPairs(entries)
      modifies this
      ensures Valid() && UniqueNames(names, entries) && after == VendorPairs(entries)
      ensures RegistryEvolves(old(entries), entries)
      ensures entries == Annotated(names, old(entries), a)
    {
      var nameKey := NameKey(names, a.vendor, a.attribute);
      ghost var before := entries;
      assert NamePosition(byName, nameKey) == LastNamed(names, entries, nameKey);
      if nameKey in byName {
        MergeAnnotation(byName[nameKey], a);
        SameIdentitySamePairs(before, entries);
        SameNamesStayUnique(names, before, entries);
        after := vendors;
      } else {
        AddAnnotation(a);
        AppendScans(names, before, NewRuntimeEntry(a), nameKey, "");
        after := vendors + {(Lower(a.vendor), a.pen)};
      }
    }

    /** A profile pass over all entries. */
    method ApplyProfile(p: Profile)
      requires Valid()
      modifies this`entries, this`mappedCount
      ensures Valid() && entries == Mapped(ProfileWith(p), old(entries))
    {
      for idx := 0 to |entries|
        invariant Valid() && |entries| == |old(entries)|
        invariant forall i :: 0 <= i < idx ==> entries[i] == ProfileEntry(p, old(entries)[i])
        invariant forall i :: idx <= i < |entries| ==> entries[i] == old(entries)[i]
      {
        ProfileEvolves(p, entries[idx]);
        Rewrite(idx, ProfileEntry(p, entries[idx]));
      }
    }

    // ----- lookups

    /** `LookupName` equals the naive search. */
    function LookupName(vendor: string, attribute: string): (r: Option<Entry>)
      requires Valid()
      reads this
      ensures r == NaiveName(names, entries, vendor, attribute)
    {
      var k := NameKey(names, vendor, attribute);
      assert k in byName <==> LastNamed(names, entries, k) >= 0;
      if k in byName then Some(entries[byName[k]]) else None
    }

    function LookupAnswer(key: PackIndexKey): (r: Option<Entry>)
      requires Valid()
      reads this
      ensures r == NaiveAnswer(names, entries, key)
    {
      assert key in byPackAttribute <==> FirstAnswering(names, entries, key) < |entries|;
      if key in byPackAttribute then Some(entries[byPackAttribute[key]]) else None
    }

    /** `lookupPackAttribute`: the three stages equal the three naive searches. */
    function LookupPackAttribute(pack: Pack, attribute: string): (r: Option<Entry>)
      requires Valid()
      reads this
      ensures r == NaivePack(names, entries, pack, attribute)
    {
      var a := PackAttribute(names, pack, attribute);
      var named := LookupName(pack.vendorName, a);
      if named.Some? then named
      else
        var numbered := if pack.vendorID > 0 then LookupAnswer(ByPEN(ToUint32(pack.vendorID), Lower(Trim(a))))
          else None;
        if numbered.Some? then numbered
        else
          var vendor := Lower(Trim(names.vendor(pack.vendorName)));
          if vendor != "" then LookupAnswer(ByVendor(Lower(Trim(vendor)), Lower(Trim(a)))) else None
    }

    /** `LookupWire`: every entry with that wire key, in entry order. */
    method LookupWire(pen: nat, number: nat) returns (out: seq<Entry>)
      requires Valid()
      ensures out == Filter((e: Entry) => e.wireKey == WireKey(pen, number), entries)
    {
      var positions := WirePositions(byWire, WireKey(pen, number));
      WireScanBounds(entries, WireKey(pen, number));
      out := [];
      for n := 0 to |positions|
        invariant out == At(entries, positions[..n])
      {
        assert positions[n] in positions;
        assert positions[..n + 1] == positions[..n] + [positions[n]];
        AtConcat(entries, positions[..n], [positions[n]]);
        out := out + [entries[positions[n]]];
      }
      assert positions[..|positions|] == positions;
      WireScanIsFilter(entries, WireKey(pen, number));
    }

    /** `ValidateCompatibilityPacks`: accepts exactly when every checked mapping is covered. */
    method ValidateCompatibilityPacks(normalizePack: string -> string, packs: seq<Pack>) returns (ok: bool)
      requires Valid()
      ensures ok <==> forall p :: 0 <= p < |packs| ==>
              forall m <- packs[p].attributes :: Checked(normalizePack, packs[p], m) ==>
                Covered(names, entries, packs[p], m)
    {
      for p := 0 to |packs|
        invariant forall q :: 0 <= q < p ==> forall m <- packs[q].attributes :: Checked(normalizePack, packs[q], m) ==>
                  Covered(names, entries, packs[q], m)
      {
        var pack := packs[p];
        for n := 0 to |pack.attributes|
          invariant forall m <- pack.attributes[..n] :: Checked(normalizePack, pack, m) ==>
                    Covered(names, entries, pack, m)
        {
          var m := pack.attributes[n];
          assert m in pack.attributes && pack.attributes[..n + 1] == pack.attributes[..n] + [m];
          if Checked(normalizePack, pack, m) {
            var covered := MappingCovered(pack, m);
            if !covered {
              return false;
            }
          }
        }
        assert pack.attributes[..|pack.attributes|] == pack.attributes;
      }
      ok := true;
    }

    method MappingCovered(pack: Pack, m: Mapping) returns (ok: bool)
      requires Valid()
      ensures ok <==> Covered(names, entries, pack, m)
    {
      var found := LookupPackAttribute(pack, m.attribute);
      if found.None? || !SemanticContains(found.value.semantic, m.semantic) {
        return false;
      }
      var parts := Split(m.direction, ',');
      for n := 0 to |parts|
        invariant forall d <- parts[..n] :: Blank(d) || Lower(Trim(d)) in found.value.directions
      {
        assert parts[..n + 1] == parts[..n] + [parts[n]] && parts[n] in parts;
        var direction := Lower(Trim(parts[n]));
        if direction != "" && direction !in found.value.directions {
          return false;
        }
      }
      assert parts[..|parts|] == parts;
      ok := true;
    }
  }

  lemma {:induction false} SameNamesStayUnique(names: Names, before: seq<Entry>, after: seq<Entry>)
    requires SameIdentity(before, after) && UniqueNames(names, before)
    ensures UniqueNames(names, after)
  {
    forall i | 0 <= i < |after| ensures EntryName(names, after[i]) == EntryName(names, before[i]) {
      assert Identity(after[i]) == Identity(before[i]);
    }
  }

  lemma {:induction false} NewNameStaysUnique(names: Names, entries: seq<Entry>, e: Entry)
    requires UniqueNames(names, entries) && LastNamed(names, entries, EntryName(names, e)) < 0
    ensures UniqueNames(names, entries + [e])
  {
    LastNamedFacts(names, entries, EntryName(names, e));
  }

  // ----- whole constructions

  /** What a finished construction guarantees about the rows it was built from. */
  ghost predicate BuiltFrom(names: Names, rows: seq<Entry>, entries: seq<Entry>) {
    UniqueNames(names, entries) && RegistryEvolves(rows, entries)
  }

  lemma {:induction false} ProfilesKeep(names: Names, p: Profile, before: seq<Entry>, after: seq<Entry>)
    requires after == Mapped(ProfileWith(p), before) && UniqueNames(names, before)
    ensures UniqueNames(names, after) && RegistryEvolves(before, after) && VendorPairs(after) == VendorPairs(before)
  {
    forall i | 0 <= i < |after| ensures Evolves(before[i], after[i]) {
      ProfileEvolves(p, before[i]);
    }
    assert SameIdentity(before, after);
    SameNamesStayUnique(names, before, after);
    SameIdentitySamePairs(before, after);
  }

  lemma {:induction false} TakeUnique(names: Names, rows: seq<Entry>, n: nat)
    requires n < |rows| && UniqueNames(names, rows[..n])
    ensures UniqueNames(names, rows[..n + 1]) <==> LastNamed(names, rows[..n], EntryName(names, rows[n])) < 0
  {
    assert rows[..n + 1] == rows[..n] + [rows[n]];
    LastNamedFacts(names, rows[..n], EntryName(names, rows[n]));
    var i := LastNamed(names, rows[..n], EntryName(names, rows[n]));
    if i >= 0 {
      assert EntryName(names, rows[..n + 1][i]) == EntryName(names, rows[..n + 1][n]);
    } else {
      NewNameStaysUnique(names, rows[..n], rows[n]);
    }
  }

  /** `ParseAttributeRegistryCSV` on parsed rows, any runtime annotations and any profile passes: it
      fails exactly on an empty or duplicated source; otherwise the entries are the rows with all
      annotations and all passes applied, every count is exact and every source row has only evolved. */
  method BuildRegistry(names: Names, rows: seq<Entry>, annotations: seq<Entry>, profiles: seq<Profile>)
    returns (ok: bool, registry: AttributeRegistry, sourceCount: nat, vendorCount: nat, attributeCount: nat)
    ensures registry.Valid() && registry.names == names
    ensures ok <==> rows != [] && UniqueNames(names, rows)
    ensures ok ==>
            registry.entries == Final(names, rows, annotations, profiles) && BuiltFrom(names, rows, registry.entries)
    ensures ok ==> sourceCount == |rows| && attributeCount == |registry.entries|
    ensures ok ==> vendorCount == |VendorPairs(registry.entries)|
  {
    registry := new AttributeRegistry(names);
    sourceCount, vendorCount, attributeCount := 0, 0, 0;
    var vendors;
    ok, vendors := LoadRows(registry, rows);
    if !ok {
      return;
    }
    sourceCount := |registry.entries|;
    vendors := ApplyRuntimeAnnotations(registry, rows, annotations, vendors);
    ApplyRuntimeProfiles(registry, rows, profiles);
    vendorCount, attributeCount := |vendors|, |registry.entries|;
  }

  /** The row loop. */
  method LoadRows(registry: AttributeRegistry, rows: seq<Entry>) returns (ok: bool, vendors: set<(string, nat)>)
    requires registry.Valid() && registry.entries == []
    modifies registry
    ensures registry.Valid()
    ensures ok <==> rows != [] && UniqueNames(registry.names, rows)
    ensures ok ==> registry.entries == rows && BuiltFrom(registry.names, rows, rows) && vendors == VendorPairs(rows)
  {
    vendors := {};
    for n := 0 to |rows|
      invariant registry.Valid() && registry.entries == rows[..n]
      invariant UniqueNames(registry.names, rows[..n]) && vendors == VendorPairs(rows[..n])
    {
      ok := LoadRow(registry, rows, n);
      if !ok {
        PrefixUnique(registry.names, rows, n + 1);
        return false, {};
      }
      AppendScans(registry.names, rows[..n], rows[n], ("", ""), "");
      assert rows[..n + 1] == rows[..n] + [rows[n]];
      vendors := vendors + {(Lower(rows[n].vendor), rows[n].pen)};
    }
    assert rows[..|rows|] == rows;
    EvolvesSelf(rows);
    ok := rows != [];
  }

  /** One turn of the row loop: a name that is already there is refused. */
  method LoadRow(registry: AttributeRegistry, rows: seq<Entry>, n: nat) returns (ok: bool)
    requires registry.Valid() && n < |rows| && registry.entries == rows[..n] && UniqueNames(registry.names, rows[..n])
    modifies registry
    ensures registry.Valid() && (ok <==> UniqueNames(registry.names, rows[..n + 1]))
    ensures ok ==> registry.entries == rows[..n + 1]
  {
    var nameKey := EntryName(registry.names, rows[n]);
    assert NamePosition(registry.byName, nameKey) == LastNamed(registry.names, rows[..n], nameKey);
    TakeUnique(registry.names, rows, n);
    if nameKey in registry.byName {
      return false;
    }
    assert rows[..n + 1] == rows[..n] + [rows[n]];
    registry.AddEntry(rows[n]);
    ok := true;
  }

  /** The annotation loop of `applyRuntimeAnnotations`. */
  method ApplyRuntimeAnnotations(registry: AttributeRegistry, ghost rows: seq<Entry>, annotations: seq<Entry>,
                                 vendors: set<(string, nat)>)
    returns (after: set<(string, nat)>)
    requires registry.Valid() && BuiltFrom(registry.names, rows, registry.entries)
             && vendors == VendorPairs(registry.entries)
    modifies registry
    ensures registry.Valid() && BuiltFrom(registry.names, rows, registry.entries)
            && after == VendorPairs(registry.entries)
    ensures registry.entries == AnnotateAll(registry.names, old(registry.entries), annotations)
  {
    after := vendors;
    for n := 0 to |annotations|
      invariant registry.Valid() && BuiltFrom(registry.names, rows, registry.entries)
                && after == VendorPairs(registry.entries)
      invariant registry.entries == AnnotateAll(registry.names, old(registry.entries), annotations[..n])
    {
      ghost var before := registry.entries;
      assert annotations[..n + 1][..n] == annotations[..n];
      after := registry.ApplyAnnotation(annotations[n], after);
      EvolvesThen(rows, before, registry.entries);
    }
    assert annotations[..|annotations|] == annotations;
  }

  /** The profile passes of `applyRuntimeAnnotations`. */
  method ApplyRuntimeProfiles(registry: AttributeRegistry, ghost rows: seq<Entry>, profiles: seq<Profile>)
    requires registry.Valid() && BuiltFrom(registry.names, rows, registry.entries)
    modifies registry
    ensures registry.Valid() && BuiltFrom(registry.names, rows, registry.entries)
            && VendorPairs(registry.entries) == VendorPairs(old(registry.entries))
    ensures registry.entries == ProfileAll(old(registry.entries), profiles)
  {
    for n := 0 to |profiles|
      invariant registry.Valid() && BuiltFrom(registry.names, rows, registry.entries)
                && VendorPairs(registry.entries) == VendorPairs(old(registry.entries))
      invariant registry.entries == ProfileAll(old(registry.entries), profiles[..n])
    {
      ghost var before := registry.entries;
      assert profiles[..n + 1][..n] == profiles[..n];
      registry.ApplyProfile(profiles[n]);
      ProfilesKeep(registry.names, profiles[n], before, registry.entries);
      EvolvesThen(rows, before, registry.entries);
    }
    assert profiles[..|profiles|] == profiles;
  }

  lemma {:induction false} PrefixUnique(names: Names, rows: seq<Entry>, n: nat)
    requires n <= |rows| && !UniqueNames(names, rows[..n])
    ensures !UniqueNames(names, rows)
  {
    var i, j :| 0 <= i < j < n && EntryName(names, rows[..n][i]) == EntryName(names, rows[..n][j]);
    assert EntryName(names, rows[i]) == EntryName(names, rows[j]);
  }

  /** Every source row is found by its name in the finished registry, as the entry it evolved into; a
      row that was already mapped still has its status. */
  lemma {:induction false} RowsAreFound(names: Names, rows: seq<Entry>, entries: seq<Entry>, i: nat)
    requires BuiltFrom(names, rows, entries) && i < |rows|
    ensures NaiveName(names, entries, rows[i].vendor, rows[i].attribute) == Some(entries[i])
    ensures Evolves(rows[i], entries[i])
    ensures rows[i].status != MISSING ==> entries[i].status == rows[i].status
  {
    assert Evolves(rows[i], entries[i]);
    assert EntryName(names, entries[i]) == EntryName(names, rows[i]);
    OnlyNamed(names, entries, i);
  }

  lemma {:induction false} OnlyNamed(names: Names, entries: seq<Entry>, i: nat)
    requires UniqueNames(names, entries) && i < |entries|
    ensures LastNamed(names, entries, EntryName(names, entries[i])) == i
  {
    LastNamedFacts(names, entries, EntryName(names, entries[i]));
  }

  // ----- what annotations and passes leave behind

  /** One annotation keeps names unique, evolves every entry, and its name is there afterwards. */
  lemma {:induction false} AnnotatedKeeps(names: Names, entries: seq<Entry>, a: Entry)
    requires UniqueNames(names, entries)
    ensures var after := Annotated(names, entries, a);
            && BuiltFrom(names, entries, after)
            && LastNamed(names, after, EntryName(names, a)) == AnnotatedAt(names, entries, a)
  {
    var k := EntryName(names, a);
    var i := LastNamed(names, entries, k);
    var after := Annotated(names, entries, a);
    EvolvesSelf(entries);
    if i >= 0 {
      AnnotateEvolves(entries[i], a);
      assert SameIdentity(entries, after);
      SameIdentitySameScans(names, entries, after, k, "");
      SameNamesStayUnique(names, entries, after);
    } else {
      AppendScans(names, entries, NewRuntimeEntry(a), k, "");
      NewNameStaysUnique(names, entries, NewRuntimeEntry(a));
    }
  }

  /** The position an annotation changes or adds. */
  function AnnotatedAt(names: Names, entries: seq<Entry>, a: Entry): (i: nat)
    ensures i < |Annotated(names, entries, a)|
  {
    var i := LastNamed(names, entries, EntryName(names, a));
    if i >= 0 then i else |entries|
  }

  /** From any point of the annotation loop on, names stay unique and every entry only evolves. */
  lemma {:induction false} AnnotateAllEvolves(names: Names, entries: seq<Entry>, annotations: seq<Entry>, k: nat)
    requires UniqueNames(names, entries) && k <= |annotations|
    ensures UniqueNames(names, AnnotateAll(names, entries, annotations[..k]))
    ensures BuiltFrom(names, AnnotateAll(names, entries, annotations[..k]), AnnotateAll(names, entries, annotations))
    decreases |annotations|
  {
    var n := |annotations|;
    if k == n {
      assert annotations[..k] == annotations;
      EvolvesSelf(AnnotateAll(names, entries, annotations));
      if n > 0 {
        AnnotateAllEvolves(names, entries, annotations[..n - 1], n - 1);
        AnnotatedKeeps(names, AnnotateAll(names, entries, annotations[..n - 1]), annotations[n - 1]);
      }
    } else {
      var before := AnnotateAll(names, entries, annotations[..n - 1]);
      AnnotateAllEvolves(names, entries, annotations[..n - 1], k);
      assert annotations[..n - 1][..k] == annotations[..k];
      AnnotatedKeeps(names, before, annotations[n - 1]);
      EvolvesThen(AnnotateAll(names, entries, annotations[..k]), before, AnnotateAll(names, entries, annotations));
    }
  }

  lemma {:induction false} ProfileAllEvolves(names: Names, entries: seq<Entry>, profiles: seq<Profile>)
    requires UniqueNames(names, entries)
    ensures BuiltFrom(names, entries, ProfileAll(entries, profiles)) && |ProfileAll(entries, profiles)| == |entries|
  {
    if profiles == [] {
      EvolvesSelf(entries);
    } else {
      var n := |profiles| - 1;
      var before := ProfileAll(entries, profiles[..n]);
      ProfileAllEvolves(names, entries, profiles[..n]);
      ProfilesKeep(names, profiles[n], before, ProfileAll(entries, profiles));
      EvolvesThen(entries, before, ProfileAll(entries, profiles));
    }
  }

  /** The finished registry has evolved from what every prefix of the annotations had built, so also the
      entries that annotations added only evolve. */
  lemma {:induction false} FinalEvolves(names: Names, rows: seq<Entry>, annotations: seq<Entry>, profiles: seq<Profile>,
                                        k: nat)
    requires UniqueNames(names, rows) && k <= |annotations|
    ensures BuiltFrom(names, AnnotateAll(names, rows, annotations[..k]), Final(names, rows, annotations, profiles))
  {
    var mid, all := AnnotateAll(names, rows, annotations[..k]), AnnotateAll(names, rows, annotations);
    AnnotateAllEvolves(names, rows, annotations, k);
    ProfileAllEvolves(names, all, profiles);
    EvolvesThen(mid, all, Final(names, rows, annotations, profiles));
  }

  /** Every annotation is found by its name in the finished registry, as the entry that evolved from what
      the annotation made of its predecessor, or from the entry it added. */
  lemma {:induction false} AnnotationsAreFound(names: Names, rows: seq<Entry>, annotations: seq<Entry>,
                                               profiles: seq<Profile>, k: nat)
    requires UniqueNames(names, rows) && k < |annotations|
    ensures var a, before := annotations[k], AnnotateAll(names, rows, annotations[..k]);
            var i, final := AnnotatedAt(names, before, a), Final(names, rows, annotations, profiles);
            && i < |final| && NaiveName(names, final, a.vendor, a.attribute) == Some(final[i])
            && Evolves(if i < |before| then Annotate(before[i], a) else NewRuntimeEntry(a), final[i])
  {
    assert annotations[..k + 1][..k] == annotations[..k];
    AnnotateAllEvolves(names, rows, annotations, k);
    FinalEvolves(names, rows, annotations, profiles, k + 1);
    AnnotatedIsFound(names, AnnotateAll(names, rows, annotations[..k]), annotations[k],
                     Final(names, rows, annotations, profiles));
  }

  lemma {:induction false} AnnotatedIsFound(names: Names, before: seq<Entry>, a: Entry, final: seq<Entry>)
    requires UniqueNames(names, before) && BuiltFrom(names, Annotated(names, before, a), final)
    ensures var i := AnnotatedAt(names, before, a);
            && i < |final| && NaiveName(names, final, a.vendor, a.attribute) == Some(final[i])
            && Evolves(if i < |before| then Annotate(before[i], a) else NewRuntimeEntry(a), final[i])
  {
    var i, mid := AnnotatedAt(names, before, a), Annotated(names, before, a);
    AnnotatedKeeps(names, before, a);
    LastNamedFacts(names, mid, EntryName(names, a));
    RowsAreFound(names, mid, final, i);
  }

  // ----- wire lookups

  ghost function At(entries: seq<Entry>, positions: seq<nat>): seq<Entry>
    requires InRange(positions, |entries|)
  {
    if positions == [] then [] else [entries[positions[0]]] + At(entries, positions[1..])
  }

  ghost predicate InRange(positions: seq<nat>, n: nat) {
    forall i :: 0 <= i < |positions| ==> positions[i] < n
  }

  lemma {:induction false} AtConcat(entries: seq<Entry>, a: seq<nat>, b: seq<nat>)
    requires InRange(a, |entries|) && InRange(b, |entries|)
    ensures InRange(a + b, |entries|) && At(entries, a + b) == At(entries, a) + At(entries, b)
  {
    if a == [] {
      assert a + b == b;
    } else {
      AtConcat(entries, a[1..], b);
      var whole, head := a + b, [entries[a[0]]];
      assert whole[0] == a[0] && whole[1..] == a[1..] + b;
      assert forall i :: 0 <= i < |whole| ==> whole[i] == if i < |a| then a[i] else b[i - |a|];
      assert At(entries, whole) == head + At(entries, whole[1..]);
    }
  }

  lemma {:induction false} WireScanBounds(entries: seq<Entry>, w: string)
    ensures InRange(WireScan(entries, w), |entries|)
  {
    if entries != [] {
      WireScanBounds(entries[..|entries| - 1], w);
    }
  }

  lemma {:induction false} AtPrefix(entries: seq<Entry>, positions: seq<nat>, e: Entry)
    requires InRange(positions, |entries|)
    ensures InRange(positions, |entries + [e]|) && At(entries + [e], positions) == At(entries, positions)
  {
    if positions != [] {
      AtPrefix(entries, positions[1..], e);
    }
  }

  lemma {:induction false} WireScanIsFilter(entries: seq<Entry>, w: string)
    ensures InRange(WireScan(entries, w), |entries|)
    ensures At(entries, WireScan(entries, w)) == Filter((e: Entry) => e.wireKey == w, entries)
  {
    WireScanBounds(entries, w);
    if entries != [] {
      var init, last := entries[..|entries| - 1], entries[|entries| - 1];
      assert entries == init + [last];
      WireScanIsFilter(init, w);
      FilterConcat((e: Entry) => e.wireKey == w, init, [last]);
      WireScanBounds(init, w);
      AtPrefix(init, WireScan(init, w), last);
      var tail := if last.wireKey == w then [|init|] else [];
      assert WireScan(entries, w) == WireScan(init, w) + tail;
      AtConcat(entries, WireScan(init, w), tail);
    }
  }
}

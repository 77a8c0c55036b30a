# RADIUS dictionary and attribute-registry engine: model and proofs

AegisNAS keeps its knowledge of RADIUS vendor attributes in a small engine: it loads FreeRADIUS
dictionary files with nested `$INCLUDE` lines, parses them into a catalog, merges catalogs, builds a
typed attribute registry with three indexes, projects that registry to a one-octet decoder table
(section 5.26 of RFC 2865), admits external vendors through an intake gate, and publishes coverage,
evidence and certification reports. This project models that engine in Dafny and proves what its
parts promise to each other, for every file graph, dictionary text, catalog, pack list and run.

`dafny verify dfyconfig.toml` checks everything.

## Layout

- `Text`, `Sequences`, `Numbers`, `Wrappers`, `Packs`, `Dimensions`: shared vocabulary. Text is ASCII `seq<char>` with
  concrete trimming, folding, splitting and joining; sorting is a stable insertion sort.
- `IncludeExpansion`, `IncludeLaws`, `IncludeOrder`: include expansion with one shared seen set, which files it reaches
  and in which order it writes them.
- `Dictionary`, `DictionaryParser`, `ParserLaws`: the dictionary parser; `Dictionary` defines it by linear
  scans, `DictionaryParser` is the indexed parser proved equal to it. `DeclaredLines` says what a text declares, read off
  its lines, and that the catalog holds exactly that.
- `KeyedMerge`, `CatalogMerge`, `CatalogMergeLaws`: the merge algebra; `MergeWinners` says which input decides what in a
  merged catalog, and `ParsedOptions` to which parsed and loaded catalogs the algebra applies.
- `SemanticSets`: comma-encoded ordered sets.
- `ReleaseKeys`, `NameSpellings`, `ProfileNames`, `PackKeys`: name keys, what names become and for which names that is
  defined, slugs and pack keys.
- `RegistryModel`, `Registry`, `RuntimeMappings`, `LongTail`: the registry, its construction and its decoder table. The
  eight vendor profile passes have one shape and are one parameterised step, `RegistryModel.Profile`; the long-tail pass is an instance.
  `AnnotationLaws` says what each entry of a finished registry contains, read off the rows, annotations and passes.
- `Intake`, `IntakeLaws`, `IntakeRecords`, `IntakeNames`: external vendor intake; `IntakeNames` runs it with the name
  normalisers of `ReleaseKeys`.
- `Coverage`, `CoverageStates`, `Evidence`, `EvidenceLaws`, `EvidenceStates`, `Certification`, `PackSummary`: the reports;
  `CoverageNames` runs the coverage search with the name normalisers of `ReleaseKeys`.
- `Orderings`: the order in which tables and reports come out.
- `Pipelines`: whole runs, from files, rows and requests to the verdicts that callers act on.

## Findings

- Catalog merge is not associative for every input: only one trailing comma of an option is removed per
  merge, so `a,,` changes again on the next merge (`CatalogMergeLaws.TwoCommasAreUnstable`). It is associative
  exactly when every option is stable (`CatalogMergeLaws.AssociativeExactly`). The parser has removed a comma before, so
  a parsed option is unstable exactly when its word ends in three commas (`ParsedOptions.WordStoredStable`, with the
  one-line texts of `ParsedOptions.OneOptionClean`), and files without `,,,` load to catalogs for which all merge laws
  hold (`ParsedOptions.ParsedIsClean`, `Pipelines.LoadedFlattens`).
- Merging a finished catalog with itself can change its vendors: an attribute option `a,` gains the option
  `a` (`CatalogMergeLaws.TrailingCommaGrows`). Nothing changes exactly when, for every attribute, the normal
  forms of its options are among its options already (`CatalogMergeLaws.MergeWithItself`).
- The membership law of merged semantics fails exactly for a blank target, when some segment is blank and
  some is not (`SemanticSets.ContainsMergeLaw`); `,x` merged with nothing is the input (`SemanticSets.BlankSegmentIsLost`).
- A vendor name of 55 slug characters gets a pack key of 64 characters, which the key pattern rejects
  (`PackKeys.DerivedKeyExactly`, `PackKeys.BoundaryVendor`). The intake validator accepts such a report all the
  same: `IntakeLaws.ReadyPackKey` says exactly when a ready report's key fits.
- The attribute prefix slice leaves the text for some attribute whenever the canonical vendor name is
  longer than its key and that key is neither empty nor ends in a dash (`ReleaseKeys.PrefixSliceExactly`);
  vendor `a__b` with attribute `a-b-` is the input (`ReleaseKeys.UnderscoresOverrun`). The intake builder calls it
  on names from the request, so a request with that dictionary stops it (`IntakeNames.UnderscoreVendorFails`), whatever
  the alias tables say of other vendors; the coverage search calls it on names from loaded dictionaries
  (`CoverageNames.UnderscoreLookupFails`). A caller of either can check the canonical name beforehand
  (`ProfileNames.DefinedExactly`, `CoverageNames.LookupDefinedExactly`).
- The certification summary's generic codec counter is always zero (`Certification.SummaryConserves`), and packet
  processing never decides a certification (`Certification.CertifiedExactly`).
- The vendor list of a pack summary depends on map iteration order exactly when a vendor name of the
  records has two enterprise numbers (`PackSummary.VendorListExactly`, with two records in `PackSummary.TwoNumbersVary`).
- An implemented mapping with a blank attribute name is never stopped by the dictionary dimension. It is ready exactly
  when it has a semantic and is a controller call or belongs to the standard pack or the product's own, and every
  other one is blocked (`EvidenceLaws.BlankReadyExactly`, with the three inputs in `EvidenceLaws.BlankMappingsReady`).
- Different mappings can share a record ID, and then the validators reject the report: spaces become dashes in IDs, so
  attributes `a b` and `a-b` collide (`EvidenceLaws.SpaceAndDashShareID`, `Certification.SpaceAndDashShareID`). Without
  colons in the fields nothing else collides (`EvidenceLaws.SameIDExactly`, `Certification.SameIDExactly`), which gives
  the verdicts over the fields (`EvidenceLaws.AcceptedByFields`, `Certification.AcceptedByFields`).

## Model

| member | source | states |
|---|---|---|
| `IncludeExpansion.Loader.ExpandIncludes` | configs/vendor_dictionary_loader.go:142-181 | the recursive expansion with its mutated seen set terminates on every file graph and produces the text, warnings and seen set of the depth-first expansion |
| `IncludeExpansion.Loader.ExpandLine` | configs/vendor_dictionary_loader.go:147-178 | one line: copied, warned about, or replaced by its matches |
| `IncludeExpansion.Loader.ExpandEach` | configs/vendor_dictionary_loader.go:155-174 | the sorted matches of one include, skipping seen files and warning about unreadable ones |
| `IncludeExpansion.Loader.LoadFile` | configs/vendor_dictionary_loader.go:121-140 | a root that was seen yields nothing, an unreadable one a warning, any other its expansion |
| `IncludeExpansion.Loader.LoadFiles` | configs/vendor_dictionary_loader.go:110-117 | the sorted files of a directory load one after the other over the shared seen set |
| `IncludeExpansion.Loader.LoadPath` | configs/vendor_dictionary_loader.go:71-119 | a missing path is warned about and not marked; a directory is walked, its failures warned about, and its sorted dictionary files tried; any other path is tried itself |
| `IncludeExpansion.Walk` | configs/vendor_dictionary_loader.go:86-106 | the walk collects the files whose names are dictionary names, in order, and one warning for each failure |
| `IncludeExpansion.Loader.Load` | configs/vendor_dictionary_loader.go:37-43 | all paths share one seen set; texts, warnings and seen set are those of loading the files the paths stand for, in order |
| `IncludeLaws.LoadVisitsOnce` | configs/vendor_dictionary_loader.go:37-43 | across a whole load no file is expanded twice, and the seen set is the files tried plus the files expanded |
| `IncludeLaws.LoadSeesReachable` | configs/vendor_dictionary_loader.go:121-181 | the seen set is exactly the files tried plus the readable files reachable from readable ones, with cycles and diamonds |
| `IncludeLaws.LoadVisitsReadable` | configs/vendor_dictionary_loader.go:121-140 | the files expanded are exactly the readable ones among those newly seen |
| `IncludeLaws.LoadOwnLines` | configs/vendor_dictionary_loader.go:142-181 | each expanded file's own lines appear exactly once, in file order, in the whole output; other files contribute nothing |
| `IncludeLaws.LoadClosed` | configs/vendor_dictionary_loader.go:142-181 | after a load, whatever a seen file includes is seen |
| `IncludeLaws.LoadSound` | configs/vendor_dictionary_loader.go:121-181 | every expanded file is reachable from a readable file that was tried |
| `IncludeLaws.TriedMembers` | configs/vendor_dictionary_loader.go:71-119 | the files tried are exactly the existing paths and the files of the directories with a dictionary name |
| `IncludeLaws.PathsSeeReachable` | configs/vendor_dictionary_loader.go:30-48 | after a load by paths a file is seen if and only if some path stands for it or it is reachable from a readable file some path stands for; a missing path stands for nothing, so it stays unmarked unless something includes it |
| `IncludeLaws.MatchesAscend` | configs/vendor_dictionary_loader.go:149-155 | the matches of an include are those of its argument, in ascending order |
| `IncludeOrder.ExpandedExactly` | configs/vendor_dictionary_loader.go:142-181 | exactly the files are expanded that some include line reaches along files not seen before |
| `IncludeOrder.FilesInOrder` | configs/vendor_dictionary_loader.go:142-181 | of two expanded files, the one first reached by an earlier include line, or by a smaller match of the same line, has all of its output before the other's |
| `IncludeOrder.IncludedBetween` | configs/vendor_dictionary_loader.go:142-181 | an expanded file's output stands between the includer's own lines before and after the first include line that reaches it |
| `IncludeOrder.OneStretch` | configs/vendor_dictionary_loader.go:155-174 | the output of an included file is one stretch with one closing newline: what expanding it gives when exactly the files reached earlier count as seen |
| `IncludeOrder.WarnsExactly` | configs/vendor_dictionary_loader.go:150-160 | the warnings are exactly those of include lines that match nothing and of matches that cannot be read, with their line numbers |
| `IncludeOrder.PathsWarnExactly` | configs/vendor_dictionary_loader.go:71-140 | a load by paths warns about exactly the paths that are not there, the directory entries that cannot be visited and the files tried that cannot be read |
| `IncludeOrder.RenderedLines` | configs/vendor_dictionary_loader.go:142-181 | split into lines again, the output text is the lines of its pieces |
| `IncludeOrder.FilesAscend` | configs/vendor_dictionary_loader.go:107-110 | a directory tries its dictionary files in ascending order |
| `IncludeOrder.TriedInOrder` | configs/vendor_dictionary_loader.go:37-43 | paths are tried in the order given |
| `IncludeOrder.RootsInOrder` | configs/vendor_dictionary_loader.go:121-140 | a root comes out after the earlier roots and before the later ones, expanded with exactly the files of the earlier ones seen |
| `DictionaryParser.CatalogBuilder.UpsertVendor` | configs/vendor_dictionary.go:221-242 | keeps the vendor index exact; the last positive ID wins, options accumulate, the first spelling of the name stays |
| `DictionaryParser.CatalogBuilder.ResolveAttributeVendor` | configs/vendor_dictionary.go:244-270 | the indexed search for an attribute's vendor equals the linear one |
| `DictionaryParser.CatalogBuilder.AppendValueToAttributes` | configs/vendor_dictionary.go:272-288 | every indexed location is inside the catalog, and the value reaches exactly the attributes of its name |
| `DictionaryParser.CatalogBuilder.FileAttribute` | configs/vendor_dictionary.go:144-147 | the location index stays exact when an attribute is appended |
| `DictionaryParser.CatalogBuilder.ParseAttribute` | configs/vendor_dictionary.go:122-147 | an ATTRIBUTE line, with its warnings and its silent cases |
| `DictionaryParser.CatalogBuilder.ParseNext` | configs/vendor_dictionary.go:96-162 | one line of the parser keeps both indexes equal to scans and does what the linear parser does |
| `DictionaryParser.ParseVendorDictionaryCatalog` | configs/vendor_dictionary.go:90-164 | for every text the indexed parser computes the linear-scan catalog |
| `DictionaryParser.IndexIsScan` | configs/vendor_dictionary.go:221-242 | an exact index answers like the first-match scan |
| `Dictionary.AppendDistinct` | configs/vendor_dictionary_loader.go:216-231 | the seen-map loop appends exactly the additions with new keys, in order |
| `Dictionary.NormalizedOptions` | configs/vendor_dictionary.go:307-320 | the options loop |
| `ParserLaws.CatalogWellFormed` | configs/vendor_dictionary.go:90-164 | in every parsed catalog vendor names are distinct ignoring case and trimmed, and each attribute has a positive number or a valid OID, never both |
| `ParserLaws.LineGrows` | configs/vendor_dictionary.go:96-162 | no line moves, drops or renames an attribute |
| `ParserLaws.AttributeCollects` | configs/vendor_dictionary.go:148-160 | from any point of any run, an attribute collects exactly the later VALUE lines of its name |
| `ParserLaws.AttributeValues` | configs/vendor_dictionary.go:90-164 | every attribute of a finished catalog has one creating line, and its values are exactly the VALUE lines of its name after it |
| `ParserLaws.UnresolvedValues` | configs/vendor_dictionary.go:148-160 | the unresolved list is exactly the VALUE lines that name no earlier attribute |
| `DeclaredLines.BlockVendorExactly` | configs/vendor_dictionary.go:113-121 | a line stands in the block of a vendor if and only if a BEGIN-VENDOR line before names it and no block begins or ends between |
| `DeclaredLines.ResolvesAsFiled` | configs/vendor_dictionary.go:244-270 | an ATTRIBUTE line is filed under its block, else under the known vendor before the first dot of its name, else under the vendor the first naming field names; the other fields are its options |
| `DeclaredLines.VendorsExactly` | configs/vendor_dictionary.go:96-162 | after any number of lines there is one vendor per name used, spelled as first used, in order of first use |
| `DeclaredLines.VendorHolds` | configs/vendor_dictionary.go:221-242 | every vendor has the number of its last VENDOR line, 0 without one, and the options of its VENDOR and BEGIN-VENDOR lines |
| `DeclaredLines.AttributesExactly` | configs/vendor_dictionary.go:122-160 | the attributes of a vendor are those of the lines filed under it, in order: the declared name, number or OID, type and options, with the VALUE lines of the name after the line |
| `DeclaredLines.LinesUnderMembers` | configs/vendor_dictionary.go:122-147 | a line is filed under a vendor if and only if its words say so |
| `DeclaredLines.WarningsExactly` | configs/vendor_dictionary.go:102-152 | the warnings are exactly those of the faulty lines, in order and by line number |
| `CatalogMerge.MergeAttribute` | configs/vendor_dictionary_loader.go:191-214 | the search-and-update loop is one keyed merge step: first non-empty fields win, lists are unions |
| `CatalogMerge.MergeVendor` | configs/vendor_dictionary_loader.go:55-63 | one vendor merged in place is one keyed merge step and keeps the index |
| `CatalogMerge.MergeVendorDictionaryCatalogs` | configs/vendor_dictionary_loader.go:50-69 | the nested loops compute the fold of all vendors |
| `MergeWinners.MergedVendors` | configs/vendor_dictionary.go:221-242 | one vendor for every non-blank name of the inputs, in order of first occurrence, with the first spelling, the last positive ID or else the first ID, and all options |
| `MergeWinners.MergedAttributes` | configs/vendor_dictionary_loader.go:191-214 | one attribute for every non-blank name of the inputs of its vendor, in order of first occurrence, with the first spelling, the first non-zero number, the first non-empty OID and type, and all options and values |
| `MergeWinners.NothingLost` | configs/vendor_dictionary_loader.go:211-231 | no option and no value of an input is lost |
| `MergeWinners.InputOrder` | configs/vendor_dictionary_loader.go:54-67 | inputs, unresolved values and warnings come in the order of the catalogs |
| `KeyedMerge.FoldFold` | configs/vendor_dictionary_loader.go:50-69 | for any lawful field rules, merging an already merged list is merging its parts |
| `KeyedMerge.FoldIdentity` | configs/vendor_dictionary_loader.go:50-69 | merging a finished list into nothing gives it back |
| `KeyedMerge.FoldSelf` | configs/vendor_dictionary_loader.go:50-69 | merging a finished list into itself combines each element with itself |
| `KeyedMerge.FoldAbsorbs` | configs/vendor_dictionary_loader.go:50-69 | merging a finished list with itself changes nothing if and only if every element absorbs itself |
| `CatalogMergeLaws.OptionsAssociative` | configs/vendor_dictionary.go:290-320 | option merging is associative when the middle options are stable |
| `CatalogMergeLaws.MergeFlattens` | configs/vendor_dictionary_loader.go:50-69 | a merged catalog inside a merge can be replaced by what it was merged from |
| `CatalogMergeLaws.MergeAssociative` | configs/vendor_dictionary_loader.go:50-69 | both groupings of three catalogs equal the three-way merge |
| `CatalogMergeLaws.MergeIsNormal` | configs/vendor_dictionary_loader.go:50-69 | merging produces normal forms |
| `CatalogMergeLaws.MergeIdentity` | configs/vendor_dictionary_loader.go:50-69 | the empty catalog is the identity on normal forms, on both sides |
| `CatalogMergeLaws.MergeWithItself` | configs/vendor_dictionary_loader.go:191-214 | merging a normal form with itself leaves its vendors unchanged if and only if, for every attribute, the folded normal forms of its options occur among its folded options |
| `CatalogMergeLaws.TrailingCommaGrows` | configs/vendor_dictionary_loader.go:191-214 | the concrete normal form that a self-merge changes |
| `CatalogMergeLaws.MergeKeepsNormalOptions` | configs/vendor_dictionary_loader.go:50-69 | merging keeps normalised attribute options normalised |
| `CatalogMergeLaws.MergedAbsorbsItself` | configs/vendor_dictionary_loader.go:50-69 | what was merged from clean catalogs with normalised options is unchanged by merging it with itself |
| `CatalogMergeLaws.MergedNamesDiffer` | configs/vendor_dictionary_loader.go:50-69 | whatever is merged, vendor names come out distinct ignoring case and space, and so do the attribute names of each vendor |
| `CatalogMergeLaws.AssociativeExactly` | configs/vendor_dictionary.go:307-320 | merging is associative over catalogs drawing options from a set if and only if every option of the set is stable under normalisation |
| `CatalogMergeLaws.TwoCommasAreUnstable` | configs/vendor_dictionary.go:307-320 | the concrete unstable option |
| `ParsedOptions.WordStoredStable` | configs/vendor_dictionary.go:307-320 | what the parser stores of an option word is stable under merging if and only if the word does not end in three commas |
| `ParsedOptions.ParsedIsClean` | configs/vendor_dictionary.go:90-164 | every text without three commas in a row parses to a catalog for which the merge laws hold |
| `ParsedOptions.OneOptionClean` | configs/vendor_dictionary.go:102-112 | the one-line texts with one option: the parsed catalog is clean if and only if the option does not end in three commas |
| `ParsedOptions.TextsPlain` | configs/vendor_dictionary_loader.go:142-181 | include expansion of files without three commas in a row produces none |
| `SemanticSets.MergeRegistrySemantics` | configs/attribute_registry.go:1243-1259 | the split, seen-map and join loop is first-wins union |
| `SemanticSets.TokensJoin` | configs/attribute_registry.go:1243-1259 | splitting undoes joining for lists of tokens |
| `SemanticSets.MergeTokens` | configs/attribute_registry.go:1243-1259 | the tokens of a merge are the distinct tokens of both, in order |
| `SemanticSets.MergeAssociative` | configs/attribute_registry.go:1243-1259 | merging text is associative |
| `SemanticSets.MergeAbsorbs` | configs/attribute_registry.go:1243-1259 | adding what is already there changes no element |
| `SemanticSets.MergeIdempotent` | configs/attribute_registry.go:1243-1259 | a text is its own self-merge if and only if it is a result of merging |
| `SemanticSets.MergeKeepsFirst` | configs/attribute_registry.go:1224-1231 | the primary semantic never changes once present |
| `SemanticSets.ContainsIsMembership` | configs/attribute_registry.go:1233-1241 | containment of a non-blank comma-free target is membership in the set |
| `SemanticSets.ContainsMergeLaw` | configs/attribute_registry.go:1233-1259 | containment distributes over merging unless the target is blank, some segment of the two texts is blank and some is not; exactly then it fails |
| `SemanticSets.BlankSegmentIsLost` | configs/attribute_registry.go:1233-1259 | the concrete failing texts |
| `Registry.AttributeRegistry.AddPackAttributeIndex` | configs/attribute_registry.go:228-248 | files an entry under exactly the keys it answers for, first entry wins |
| `RegistryModel.IndexKeysMean` | configs/attribute_registry.go:1493-1523 | the filed keys are exactly the folded name and the texts after its dashes, by number and by vendor |
| `Registry.AttributeRegistry.AddEntry` | configs/attribute_registry.go:215-226 | appends, and all three indexes and the mapped count stay exact |
| `Registry.AttributeRegistry.ApplyAnnotation` | configs/attribute_registry.go:625-657 | the entry of the annotation's name becomes the annotated one, or the new entry is added, and nothing else changes; indexes, count, unique names and the vendor set stay exact |
| `Registry.AttributeRegistry.ApplyProfile` | configs/attribute_registry.go:668-690 | a profile pass rewrites every entry by the profile and keeps indexes and count exact |
| `RegistryModel.AnnotateEvolves` | configs/attribute_registry.go:627-641 | an annotation keeps identity and mapped status, never leaves an entry missing, and only grows its semantics |
| `RegistryModel.ProfileEvolves` | configs/attribute_registry.go:668-690 | so does a profile pass |
| `RegistryModel.EvolvesThen` | configs/attribute_registry.go:624-690 | evolution composes, so it holds over every run of steps |
| `Registry.LoadRows` | configs/attribute_registry.go:133-155 | rows load if and only if there are some and their normalised names differ |
| `Registry.ApplyRuntimeAnnotations` | configs/attribute_registry.go:625-657 | the entries become those with all annotations applied in order, with the vendor pairs exact |
| `Registry.ApplyRuntimeProfiles` | configs/attribute_registry.go:658-665 | the entries become those with all passes applied in order, with the vendor pairs unchanged |
| `Registry.BuildRegistry` | configs/attribute_registry.go:109-161 | fails exactly on an empty or duplicated source; otherwise the entries are the rows with all annotations and then all passes applied, indexes and counts are exact, and source rows only evolve |
| `Registry.RowsAreFound` | configs/attribute_registry.go:1417-1426 | every source row is found by name in the finished registry as the entry it evolved into, with its mapped status kept |
| `Registry.AnnotateAllEvolves` | configs/attribute_registry.go:625-657 | from any point of the annotation loop on, names stay unique and every entry, source row or added, only evolves |
| `Registry.FinalEvolves` | configs/attribute_registry.go:624-666 | the finished registry has evolved from what every prefix of the annotations had built |
| `Registry.AnnotationsAreFound` | configs/attribute_registry.go:624-666 | every annotation is found by its name in the finished registry, as the entry evolved from what it made of its predecessor or from the entry it added |
| `AnnotationLaws.NamesStand` | configs/attribute_registry.go:625-657 | under every name the annotated registry has what the row and the annotations of that name say: the whole entry, field by field |
| `AnnotationLaws.AnnotationsDecide` | configs/attribute_registry.go:625-641 | an annotated entry has the pack key, directions and decoder of the last annotation of its name and the semantics of them all |
| `AnnotationLaws.NamesInOrder` | configs/attribute_registry.go:625-657 | one entry per name: the rows in place, then the new names of the annotations in order of first occurrence |
| `AnnotationLaws.PassesInOrder` | configs/attribute_registry.go:658-690 | each profile pass changes an entry it applies to as its functions say, in their order, and no other |
| `AnnotationLaws.UntouchedByPasses` | configs/attribute_registry.go:658-690 | an entry that no pass applies to stays what the annotations made it |
| `AnnotationLaws.AnnotatedStays` | configs/attribute_registry.go:624-690 | and is found unchanged in the finished registry |
| `Registry.AttributeRegistry.LookupName` | configs/attribute_registry.go:1417-1426 | equals the naive search by name |
| `Registry.AttributeRegistry.LookupWire` | configs/attribute_registry.go:1428-1438 | equals filtering all entries by wire key |
| `Registry.AttributeRegistry.LookupPackAttribute` | configs/attribute_registry.go:1474-1491 | the three indexed stages equal three naive searches |
| `Registry.AttributeRegistry.ValidateCompatibilityPacks` | configs/attribute_registry.go:1440-1472 | accepts if and only if every implemented vendor mapping has a naively found entry with its semantic and all its directions |
| `RuntimeMappings.BuildRuntimeMappings` | configs/attribute_registry.go:1525-1568 | the seen-map loop and the sort compute the table |
| `RuntimeMappings.MappingsAreFirsts` | configs/attribute_registry.go:1525-1568 | every mapping is that of the first eligible entry with its key, with a lossless type in 1..255 |
| `RuntimeMappings.MappingsSay` | configs/attribute_registry.go:1531-1548 | every mapping says, field by field, what the first entry says that has a decoder, a one-octet number and the mapping's pack, number and semantic |
| `RuntimeMappings.EligibleIsMapped` | configs/attribute_registry.go:1525-1568 | every eligible entry's key is in the table |
| `RuntimeMappings.TableUniqueAndSorted` | configs/attribute_registry.go:1549-1566 | one mapping per key, sorted by known pack, pack position, type and attribute |
| `Orderings.TableOrder` | configs/attribute_registry.go:1549-1566 | known packs come first in their order, then by type, then by attribute |
| `RuntimeMappings.EvidenceExactly` | configs/compatibility_evidence.go:474-484 | the evidence set has a key if and only if a linear scan of the registry finds a decoder |
| `LongTail.MergeLongTailDirections` | configs/long_tail_namespace.go:492-508 | the set-and-sort loop computes the merged directions |
| `LongTail.MergedDirections` | configs/long_tail_namespace.go:492-508 | merged directions are exactly the folded non-blank ones of both lists, each once, in order |
| `LongTail.SemanticHasPrimary` | configs/long_tail_namespace.go:362-457 | every attribute gets a primary semantic |
| `LongTail.DirectionsHaveInbound` | configs/long_tail_namespace.go:459-490 | every attribute can at least come in |
| `LongTail.DecoderFor` | configs/long_tail_namespace.go:520-554 | a decode kind and semantic exist exactly for numbers in 1..255 |
| `LongTail.CompletingPass` | configs/long_tail_namespace.go:212-241 | any profile whose functions promise semantics, directions and decoders completes every entry it takes |
| `LongTail.RuntimePassCompletes` | configs/long_tail_namespace.go:212-241 | after the long-tail pass an entry is mapped, has a primary semantic, an inbound direction and a decoder when its number fits |
| `Intake.CollectDictionaryBlockers` | configs/external_vendor_intake.go:713-747 | the loop over seen-maps computes the blocker list |
| `Intake.Summarize` | configs/external_vendor_intake.go:641-684 | one pass of counters equals the counts of record classes |
| `Intake.BuildReport` | configs/external_vendor_intake.go:267-342 | assembles request blockers, records, states, summary and status |
| `Intake.ValidateReport` | configs/external_vendor_intake.go:372-432 | accepts if and only if header and record checks pass and record IDs differ |
| `Intake.RuntimeMappingsOf` | configs/external_vendor_intake.go:434-454 | mappings only of a validated report |
| `IntakeLaws.DictionaryBlockersExactly` | configs/external_vendor_intake.go:713-747 | no dictionary blockers if and only if names, numbers, OIDs and types are clean and pairwise apart |
| `IntakeLaws.RequestBlockersExactly` | configs/external_vendor_intake.go:493-551 | no request blockers if and only if the request is clean in every respect |
| `IntakeLaws.RecordIDsDiffer` | configs/external_vendor_intake.go:772-777 | record IDs of one vendor tell apart different numbers or OIDs, whatever the attribute names |
| `IntakeLaws.CleanRecord` | configs/external_vendor_intake.go:553-639 | a clean attribute makes a ready record that the validator's record checks accept, keeping number and OID |
| `IntakeLaws.CleanRecords` | configs/external_vendor_intake.go:553-639 | all records of a clean dictionary are good, with distinct IDs and distinct one-octet numbers |
| `IntakeRecords.RecordReflects` | configs/external_vendor_intake.go:553-621 | the record of any attribute has its normalised name, number, OID, wire key, type and value count, and is blocked if and only if its type is unknown or it has neither number nor OID |
| `Orderings.IntakeOrder` | configs/external_vendor_intake.go:622-637 | one record per attribute, by number, then OID, then attribute |
| `IntakeRecords.SecretsAreRedacted` | configs/long_tail_namespace.go:556-640 | exactly the attributes whose normalised name looks like a secret are classed as redacted, and then processing, policy, storage and decoder are those of redacted evidence |
| `IntakeRecords.RequestFree` | configs/external_vendor_intake.go:493-551 | for any kind of blocker: a request gets none of the kind if and only if no check with a blocker of the kind fails |
| `IntakeRecords.StatesAgree` | configs/external_vendor_intake.go:344-370 | each of the four provenance states of a report is refused if and only if the report lists a blocker of its kind |
| `IntakeRecords.SpacesAreIgnored` | configs/external_vendor_intake.go:456-463 | requests that differ only in outer spaces, and in the case of the hash, have the same reports |
| `IntakeLaws.SummaryConserves` | configs/external_vendor_intake.go:641-684 | decodable plus metadata-only, native plus passed through, and ready plus blocked each make up the attributes |
| `IntakeLaws.ReadyReport` | configs/external_vendor_intake.go:344-432 | without blockers all four provenance states, the header and the records pass |
| `IntakeLaws.GatesAgree` | configs/external_vendor_intake.go:267-432 | for every built report: no blockers if and only if status ready if and only if the validator accepts; `IntakeNames.BuildOrFail` says which requests get a report |
| `IntakeLaws.ReadyMappings` | configs/external_vendor_intake.go:434-454 | the mappings of a ready report number the decodable attributes, have distinct lossless one-octet types, and a kind and a semantic each |
| `IntakeLaws.ReadyPackKey` | configs/external_vendor_intake.go:838-877 | the pack key of a report without blockers fits its pattern if and only if a key was requested or the vendor's slug has at most 54 characters |
| `IntakeLaws.SelectsExactly` | configs/external_vendor_intake.go:473-491 | the intake is about the first vendor of the requested name, else the first with the requested number, else the only one, else none |
| `IntakeNames.BuildOrFail` | configs/external_vendor_intake.go:553-574 | with the modelled normalisers the builder gives a report if and only if the prefix slice is in bounds for every attribute of the selected vendor |
| `IntakeNames.TwoLineRequest` | configs/external_vendor_intake.go:267-277 | for every alias table that has no row for the vendor, and a two-line dictionary text, parsed and selected: the request is handled if and only if the slice is in bounds for its one attribute |
| `IntakeNames.UnderscoreVendorFails` | configs/dictionary_release_profiles.go:441-453 | the concrete request that stops the builder, under every alias table without a row for its vendor |
| `IntakeNames.TablesAreProper` | configs/dictionary_release_profiles.go:278-291 | a validated alias table and the long-tail classifier discharge what the gates assume about names and semantics |
| `ReleaseKeys.NormalizedReleaseKey` | configs/dictionary_release_profiles.go:431-439 | the replace-until-fixpoint loop terminates and equals the one-pass collapse |
| `ReleaseKeys.CollapseHalved` | configs/dictionary_release_profiles.go:431-439 | one replacement pass does not change the collapse |
| `ReleaseKeys.KeyIdempotent` | configs/dictionary_release_profiles.go:431-439 | keys are fixed points and never longer than the text |
| `ReleaseKeys.VendorIdempotentExactly` | configs/dictionary_release_profiles.go:278-291 | vendor normalisation is idempotent on every input if and only if every unshadowed row of the table is settled |
| `ReleaseKeys.ConsistentTableSettles` | configs/dictionary_release_profiles.go:278-291 | it is idempotent for tables where no alias key equals the canonical key of a row with another vendor |
| `ReleaseKeys.NormalizedIsText` | configs/dictionary_release_profiles.go:278-291 | with a validated table a present name never normalises to nothing |
| `ReleaseKeys.ValidateVendorAliases` | configs/dictionary_release_profiles.go:455-468 | accepts if and only if no key or vendor is blank and no alias key stands for two vendors |
| `ReleaseKeys.PrefixSliceExactly` | configs/dictionary_release_profiles.go:441-453 | the prefix slice is in bounds for every attribute if and only if the canonical name is as long as its key, or the key is empty or ends in a dash |
| `ReleaseKeys.UnderscoresOverrun` | configs/dictionary_release_profiles.go:441-453 | the concrete vendor and attribute whose slice is out of bounds, under every alias table without a row for the vendor |
| `ReleaseKeys.AttributeDefined` | configs/dictionary_release_profiles.go:293-314 | normalising an attribute name is defined if and only if its prefix slice is in bounds |
| `NameSpellings.VendorSpelling` | configs/dictionary_release_profiles.go:278-291 | a vendor name becomes the vendor of the first row with its key, and stays itself, trimmed, without one |
| `NameSpellings.PrefixedName` | configs/dictionary_release_profiles.go:441-447 | the name of a plainly spelled vendor and a dash are cut off an attribute name |
| `NameSpellings.OtherNames` | configs/dictionary_release_profiles.go:449-452 | otherwise a first part before a dot that has the vendor's key is cut off, and any other name stays as it is |
| `NameSpellings.AttributeSpelling` | configs/dictionary_release_profiles.go:293-314 | an attribute name becomes the canonical one of the first row that speaks of its vendor and of its key with or without the prefix, and stays itself without one |
| `ProfileNames.DefinedExactly` | configs/dictionary_release_profiles.go:293-314 | every attribute list of a vendor is handled if and only if the canonical name is prefix safe |
| `PackKeys.ExternalVendorSlug` | configs/external_vendor_intake.go:849-873 | the character loop, trim and cut give 1 to 55 characters over a-z, 0-9 and single inner dashes |
| `PackKeys.SlugShape` | configs/external_vendor_intake.go:849-873 | the same of the slug as a value, for every input |
| `PackKeys.SlugIdempotent` | configs/external_vendor_intake.go:849-873 | slugs are fixed points |
| `PackKeys.SlugKeepsLetters` | configs/external_vendor_intake.go:849-873 | a slug keeps every letter and digit, in order, up to the length limit |
| `PackKeys.DerivedKeyExactly` | configs/external_vendor_intake.go:838-877 | a derived key matches the pattern if and only if the slug has at most 54 characters |
| `PackKeys.PackKeyExactly` | configs/external_vendor_intake.go:838-877 | the key of an intake matches if and only if the requested key does or the slug is short enough |
| `PackKeys.RequestedKeyExactly` | configs/external_vendor_intake.go:838-877 | with an absent or valid requested key, the key fits if and only if one was requested or the slug is short enough |
| `PackKeys.BoundaryVendor` | configs/external_vendor_intake.go:838-877 | the vendor name at the boundary, whose key is rejected |
| `Coverage.CoverMappings` | configs/vendor_coverage.go:122-139 | the counters of a row are sizes of classes of mappings |
| `Coverage.VendorByNameExactly` | configs/vendor_dictionary.go:331-339 | the catalog search finds the first vendor of a normalised name and fails if and only if there is none |
| `Coverage.BuildRow` | configs/vendor_coverage.go:96-143 | one row describes its pack |
| `Coverage.RowConserves` | configs/vendor_coverage.go:96-198 | matched plus missing is the RADIUS count, implemented plus planned all mappings, and a non-standard row is dictionary-backed if and only if it has RADIUS mappings and all are matched |
| `Coverage.BuildReport` | configs/vendor_coverage.go:57-94 | rows for all packs, totals as sums over the rows |
| `Coverage.ReportConserves` | configs/vendor_coverage.go:57-94 | the report totals make up all RADIUS attributes and all mappings of all packs |
| `CoverageStates.StateExactly` | configs/vendor_coverage.go:183-198 | all six states of a row, by what its pack contains and the catalog knows |
| `CoverageStates.CoverageSays` | configs/vendor_coverage.go:145-180 | every mapping of a row has its trimmed texts and is found if and only if the catalog knows it |
| `CoverageStates.CountersExactly` | configs/vendor_coverage.go:57-94 | the report counts exactly the packs that are active, dictionary-backed, partially covered, or without their vendor in the catalog |
| `CoverageNames.FindAttribute` | configs/vendor_dictionary.go:341-354 | the search loop with the modelled normalisers stops where a slice is out of bounds before a hit, and answers otherwise |
| `CoverageNames.LookupIsSearch` | configs/vendor_dictionary.go:341-354 | where it answers, it answers as the coverage model does |
| `CoverageNames.LookupDefinedExactly` | configs/vendor_dictionary.go:341-354 | for a vendor name, every lookup in every dictionary runs to its end if and only if the canonical name is prefix safe |
| `CoverageNames.UnderscoreLookupFails` | configs/vendor_dictionary.go:341-354 | the concrete loaded vendor whose lookups all stop |
| `Evidence.CoverageByMapping` | configs/compatibility_evidence.go:464-472 | the map holds, for each key, the last coverage filed |
| `Evidence.RowPairsAreJobs` | configs/compatibility_evidence.go:464-472 | the coverage rows hold one pair per mapping of every pack, in order |
| `Evidence.Summarize` | configs/compatibility_evidence.go:421-462 | state and dimension counters equal counts over the records |
| `Evidence.BuildReport` | configs/compatibility_evidence.go:89-124 | one record per mapping of every pack, sorted by ID, with its summary |
| `Orderings.EvidenceOrder` | configs/compatibility_evidence.go:119-121 | the records are those built, by ID |
| `Evidence.ValidateReport` | configs/compatibility_evidence.go:134-171 | accepts if and only if every check passes and IDs differ |
| `EvidenceLaws.DecodeExactly` | configs/compatibility_evidence.go:277-300 | a received vendor mapping's packet_decode passes if and only if a linear scan of the registry finds a decoder |
| `EvidenceLaws.NeverCertified` | configs/compatibility_evidence.go:337-385 | no built record claims certification, and it needs external validation exactly for implemented third-party mappings |
| `EvidenceLaws.ReadyExactly` | configs/compatibility_evidence.go:173-215 | a mapping is ready if and only if it is implemented, has a semantic, and plain searches of catalog and registry find what it needs |
| `EvidenceStates.SoftwareExactly` | configs/compatibility_evidence.go:350-369 | all four software states, by what the mapping declares and what plain searches of catalog and registry find |
| `EvidenceStates.DimensionsSay` | configs/compatibility_evidence.go:245-335 | each of the six dimensions, read off the mapping, the catalog and the registry |
| `EvidenceStates.RecordsSay` | configs/compatibility_evidence.go:173-215 | when record IDs differ, every record says of its mapping, field by field, what pack, catalog and registry say |
| `EvidenceLaws.BlankReadyExactly` | configs/compatibility_evidence.go:245-300 | a mapping without an attribute name is ready if and only if it is implemented, has a semantic and is a controller call or in an owned pack, and blocked if and only if it is implemented and one of the other two fails |
| `EvidenceLaws.BlankMappingsReady` | configs/compatibility_evidence.go:245-275 | the concrete ready mappings without an attribute name: in the product's own pack, in the standard pack, and a controller call of a vendor pack |
| `EvidenceLaws.AcceptedExactly` | configs/compatibility_evidence.go:134-171 | the validator accepts a built report if and only if the source hash is present and record IDs are pairwise distinct |
| `EvidenceLaws.SameIDExactly` | configs/compatibility_evidence.go:495-504 | keys without colons before the direction share a record ID if and only if they are equal after spaces became dashes |
| `EvidenceLaws.AcceptedByFields` | configs/compatibility_evidence.go:134-171 | so the validator accepts a built report if and only if the source hash is present and no two mappings agree in pack, semantic, attribute and direction up to case and dashes |
| `EvidenceLaws.SpaceAndDashShareID` | configs/compatibility_evidence.go:495-504 | the concrete pair of attributes that share an ID |
| `EvidenceLaws.StatesConserve` | configs/compatibility_evidence.go:421-462 | the four software states add up to all mappings and nothing counts as certified |
| `EvidenceLaws.OwnCoverage` | configs/compatibility_evidence.go:109-118 | with distinct IDs every mapping is judged by its own coverage, although the table is last-wins |
| `EvidenceLaws.ReadyCountExactly` | configs/compatibility_evidence.go:89-171 | in an accepted report the published ready count is the number of mappings that plain searches find ready |
| `Dimensions.BlockersExactly` | configs/compatibility_evidence.go:402-419 | no blockers if and only if no required dimension is blocked |
| `Certification.BuildReport` | configs/vendor_mapping_certification.go:96-145 | one record per partial source row, looked up in the registry, sorted and summarised, with the per-vendor list and the registry's own counters |
| `Orderings.CertificationOrder` | configs/vendor_mapping_certification.go:96-145 | one record per baseline row, by ID |
| `Orderings.BaselineOrder` | configs/vendor_mapping_certification.go:228-236 | the baseline comes by vendor, then number, then attribute |
| `Certification.Summarize` | configs/vendor_mapping_certification.go:442-491 | state counters equal counts over the records, and the eight wiring counters equal counts over all their dimensions |
| `Certification.SummarizeVendors` | configs/vendor_mapping_certification.go:493-526 | one exact item per folded vendor name and number, adding up to the records, sorted by name and number |
| `Certification.VendorListFixed` | configs/vendor_mapping_certification.go:493-526 | the per-vendor list is the same for every map iteration order |
| `Certification.VendorListSays` | configs/vendor_mapping_certification.go:493-526 | every record's vendor has one item, which counts exactly the records of that vendor ignoring case and of its number, and shows the first spelling |
| `Certification.ValidateReport` | configs/vendor_mapping_certification.go:147-197 | accepts if and only if header and record checks pass and IDs differ |
| `Certification.RuntimeWiresExactly` | configs/vendor_mapping_certification.go:591-597 | a wire key is decoded at run time if and only if some eligible registry entry has it |
| `Certification.BaselineMembers` | configs/vendor_mapping_certification.go:211-236 | the baseline is exactly the partial source rows |
| `Certification.BaselineIsFound` | configs/vendor_mapping_certification.go:126-135 | every baseline row is found in a finished registry, evolved from itself, and still partial after the merge |
| `Certification.RegistryNeverBlocks` | configs/vendor_mapping_certification.go:307-318 | so its typed_registry dimension always passes |
| `Certification.RecordSays` | configs/vendor_mapping_certification.go:553-568 | a record has the keys, directions and decoder of the entry a linear search finds, its texts when present, and the identity and wire type of the row; each of its ten dimensions is read off the two |
| `Certification.GatesAgree` | configs/vendor_mapping_certification.go:267-290 | no blockers if and only if every required dimension passed |
| `Certification.CertifiedIsAcceptable` | configs/vendor_mapping_certification.go:170-195 | a built record is certified if and only if the validator's record checks accept it |
| `Certification.CertifiedExactly` | configs/vendor_mapping_certification.go:240-440 | a baseline row is certified if and only if it has wire data and a classification, the primary semantic of the entry found for it is known and enforced, and it is rendered when the found entry is sent in replies |
| `Certification.SummaryConserves` | configs/vendor_mapping_certification.go:442-491 | certified plus blocked is the baseline, all need external validation, and the generic codec counter is zero |
| `Certification.AcceptedExactly` | configs/vendor_mapping_certification.go:147-197 | the validator accepts a built report if and only if the source hash is present, the baseline has its fixed size, every row deserves certification and IDs differ |
| `Certification.SameIDExactly` | configs/vendor_mapping_certification.go:549-551 | when pack keys have no colon, record IDs are equal if and only if the numbers are and pack keys and attributes are up to case and dashes |
| `Certification.AcceptedByFields` | configs/vendor_mapping_certification.go:147-197 | so the validator's verdict on a built report is one over the fields of the rows and of the entries found for them |
| `Certification.SpaceAndDashShareID` | configs/vendor_mapping_certification.go:549-551 | the concrete pair of attributes that share an ID |
| `PackSummary.Summarize` | configs/access_vendor_pack.go:248-275 | one pass computes the tally, blocked as the rest, and the number of distinct vendor pairs |
| `PackSummary.TallyConserves` | configs/access_vendor_pack.go:248-275 | native plus passed through is the attribute count, redacted is within passed through |
| `PackSummary.Group` | configs/access_vendor_pack.go:278-302 | the map holds, per occurring key, the first record and the tally of exactly its records |
| `PackSummary.SummarizeBy` | configs/access_vendor_pack.go:277-349 | group, read back in any order and sort: one exact item per key, sorted, adding up to the whole |
| `PackSummary.GroupsSumToWhole` | configs/access_vendor_pack.go:277-349 | every counter of the groups sums to the global counter, for any key and order |
| `PackSummary.ListsIsReading` | configs/access_vendor_pack.go:303-307 | reading the map back in some order is listing the groups of the records in some order |
| `PackSummary.CapabilityListIsFixed` | configs/access_vendor_pack.go:337-348 | the capability list of any records is the same for every map iteration order |
| `PackSummary.VendorListExactly` | configs/access_vendor_pack.go:303-309 | the vendor list of a record list is the same for every iteration order if and only if no vendor name has two numbers |
| `PackSummary.TwoNumbersVary` | configs/access_vendor_pack.go:303-309 | the concrete record list whose vendor list varies |
| `Pipelines.LoadCatalog` | configs/vendor_dictionary_loader.go:30-48 | from the configured paths: every file graph loads without expanding a file twice; the catalog is the merge of the linear-scan parses with distinct vendor and attribute names, in normal form when no file has three commas in a row, and the warnings come out in the source's order |
| `Pipelines.NormalizeImportPaths` | configs/vendor_dictionary_loader.go:233-252 | the configured paths are trimmed, cleaned and kept once ignoring case, blanks dropped |
| `Pipelines.ImportPathsExactly` | configs/vendor_dictionary_loader.go:233-252 | the paths visited are what the non-blank configured paths become, one of each spelling |
| `Pipelines.LoadedFlattens` | configs/vendor_dictionary_loader.go:30-69 | when no file has three commas in a row, a loaded catalog anywhere in a merge can be replaced by the catalogs it was loaded from |
| `Pipelines.RecordIntake` | internal/adminapi/external_vendor_intake.go:72-85 | a request is handled if and only if its prefix slices are in bounds; then it is recorded if and only if its report has no blockers if and only if its status is ready, with a decoder table of the announced size and distinct types |
| `Pipelines.ServeEvidence` | internal/adminapi/compatibility_evidence.go:41-46 | from source rows, annotations and passes to the served report: served if and only if record IDs differ, and then the ready count is what plain searches of the catalog and of the resulting entries find |
| `Pipelines.ServeCertification` | internal/adminapi/vendor_mapping_certification.go:30-39 | from source rows, annotations and passes to the verdict: served if and only if the baseline has its size, every partial row deserves certification by its resulting entry, and IDs differ |
| `Pipelines.LongTailRowsDecode` | configs/long_tail_namespace.go:212-241 | whatever annotations and earlier passes did, every long-tail source row with a number in 1..255 has its wire key in the runtime table of the finished registry |
| `Numbers.DecimalRoundTrip` | configs/external_vendor_intake.go:772-777 | decimal text reads back as its number, which is why number-based IDs differ |

## Left out

- Text outside ASCII: case folding and trimming are written for ASCII, so Unicode folding and Unicode spaces are not captured.
- The real file system: `Glob`, `Abs`, `Clean` and `Stat` are a fixed finite map of texts, a match function, a cleaning function and a set of unreadable files; per directory, what its walk meets is a list of files and failures, so the order of the walk and the skipping of hidden directories are inside that list. Paths stand for their absolute forms.
- `strconv.ParseInt` is a parameter: the parser proofs hold for every way of reading numerals.
- Reading the registry CSV and its record fields (configs/attribute_registry.go, lines 163 to 213) is not modelled; a registry is built from parsed rows.
- OID paths and wire codecs of registry entries; certification sees only whether an entry's codec is grouped.
- The keyword tables of the other seven profile passes; they are instances of the one parameterised step, for which the registry laws are proved.
- Which keyword of an attribute name leads to which semantic, family or direction in the long-tail tables: the tables are written down in `LongTail`, and its laws hold for any keywords.
- The number, OID, type and value count that a coverage row copies from the found dictionary attribute.
- The fixed alias tables and the embedded data with their expected counts: facts about data rather than about code.
- The release profile's normalisers are total function parameters of the registry and report models; their own code is modelled in `ReleaseKeys`. `IntakeNames` and `CoverageNames` connect it to the intake and to the coverage search, the two places where names come from outside; in the registry it meets embedded rows, annotations and packs only.
- SHA-256, fingerprints and time parsing are abstract functions; floating-point percentages are not modelled.
- Message texts: warnings and blockers are constructors, dimension, software and provenance states are constructors too, so the validators' checks for unknown state texts have no counterpart.
- Next steps, labels, notes, product scopes, grammar rows and functionality sentences: constant text.
- NUL-joined map keys are tuples, so texts that contain a NUL character are not distinguished from joined ones.
- IntakeLaws.GatesAgree: takes as given that hashes are not blank texts and that a present vendor name does not normalise to nothing; `IntakeNames.TablesAreProper` discharges the latter.
- EvidenceLaws.BlankReadyExactly: takes as given that normalising leaves blank names blank and that no registry entry has a blank name.
- Certification.BuildReport: reads the evidence records by scanning for a wire key instead of through the map grouped by wire key.
- The semantic-level evidence records (configs/compatibility_evidence.go, lines 217 to 243) reuse the same state functions and would add only easy members.
- Pipelines.LoadCatalog: returns the warnings beside the catalog, whose own warnings are those of the parser.
- Vendor scanning, the rest of the admin API, backup and command-line output have no logic of this engine.

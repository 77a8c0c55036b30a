/** Whole runs, from the inputs of the engine to the verdicts its callers act on. */
module Pipelines {
  import opened Text
  import opened Sequences
  import opened Wrappers
  import opened Dictionary
  import opened RegistryModel
  import opened Registry
  import opened Packs
  import I = IncludeExpansion
  import IncludeLaws
  import DictionaryParser
  import CatalogMerge
  import CatalogMergeLaws
  import KeyedMerge
  import ParsedOptions
  import RuntimeMappings
  import ReleaseKeys
  import L = LongTail
  import Intake
  import IntakeLaws
  import ProfileNames
  import IntakeNames
  import C = Coverage
  import E = Evidence
  import EL = EvidenceLaws
  import Certification

  // ----- from files to a catalog

  /** A warning of the parser or of the loader. */
  datatype LoadWarning = Parsing(root: I.Path, parsing: Warning) | Loading(loading: I.Warning)

  ghost function ParsedWith(read: NumberReader): I.LoadedText -> Catalog {
    (t: I.LoadedText) => ParseCatalog(read, t.root, t.text)
  }

  function FromLoader(): I.Warning -> LoadWarning {
    (w: I.Warning) => Loading(w)
  }

  function FromParser(root: I.Path): Warning -> LoadWarning {
    (w: Warning) => Parsing(root, w)
  }

  /** The warnings of the files in order: for each, those of its parse and then those of its includes. */
  ghost function FileWarnings(read: NumberReader, loaded: seq<I.LoadedText>): seq<LoadWarning> {
    if loaded == [] then []
    else FileWarnings(read, loaded[..|loaded| - 1]) + WarningsOf(loaded[|loaded| - 1],
                                                                 ParsedWith(read)(loaded[|loaded| - 1]))
  }

  function WarningsOf(t: I.LoadedText, parsed: Catalog): seq<LoadWarning> {
    Mapped(FromParser(t.root), parsed.warnings) + Mapped(FromLoader(), t.warnings)
  }

  lemma {:induction false} FileWarningsSnoc(read: NumberReader, loaded: seq<I.LoadedText>, t: I.LoadedText)
    ensures FileWarnings(read, loaded + [t]) == FileWarnings(read, loaded) + WarningsOf(t, ParsedWith(read)(t))
    ensures Mapped(ParsedWith(read), loaded + [t]) == Mapped(ParsedWith(read), loaded) + [ParsedWith(read)(t)]
  {
    assert (loaded + [t])[..|loaded|] == loaded;
    MappedConcat(ParsedWith(read), loaded, [t]);
  }

  /** One configured path: trimmed, and cleaned unless that gives the current directory. */
  function CleanPath(fs: I.FileSystem): I.Path -> I.Path {
    (path: I.Path) => var trimmed := Trim(path); if fs.clean(trimmed) != "." then fs.clean(trimmed) else trimmed
  }

  predicate IsConfigured(path: I.Path) {
    !Blank(path)
  }

  /** The paths a load visits: the configured ones without blanks, cleaned, each once ignoring case. */
  function ImportPaths(fs: I.FileSystem, paths: seq<I.Path>): seq<I.Path> {
    Distinct(Lower, {}, Mapped(CleanPath(fs), Filter(IsConfigured, paths)))
  }

  /** `normalizeVendorDictionaryImportPaths`. */
  method NormalizeImportPaths(fs: I.FileSystem, paths: seq<I.Path>) returns (out: seq<I.Path>)
    ensures out == ImportPaths(fs, paths) && UniqueKeys(Lower, out)
  {
    var cleaned := Collect(IsConfigured, CleanPath(fs), paths);
    out := AppendDistinct(Lower, [], cleaned);
    assert Keys(Lower, []) == {};
    assert [] + Distinct(Lower, {}, cleaned) == Distinct(Lower, {}, cleaned);
    DistinctKeys(Lower, {}, cleaned);
  }

  /** What a configured path becomes: trimmed and cleaned, but never the current directory by cleaning. */
  ghost predicate Becomes(fs: I.FileSystem, path: I.Path, q: I.Path) {
    && Trim(path) != ""
    && (if fs.clean(Trim(path)) == "." then q == Trim(path) else q == fs.clean(Trim(path)))
  }

  /** The paths visited are what the non-blank configured paths become, the first of each spelling. */
  lemma {:induction false} ImportPathsExactly(fs: I.FileSystem, paths: seq<I.Path>, q: I.Path)
    ensures q in ImportPaths(fs, paths) ==> exists p <- paths :: Becomes(fs, p, q)
    ensures (exists p <- paths :: Becomes(fs, p, q)) ==>
              exists other <- ImportPaths(fs, paths) :: Lower(other) == Lower(q)
  {
    var kept := Filter(IsConfigured, paths);
    var cleaned := Mapped(CleanPath(fs), kept);
    FilterMembers(IsConfigured, paths);
    DistinctKeys(Lower, {}, cleaned);
    if q in ImportPaths(fs, paths) {
      var i :| 0 <= i < |cleaned| && cleaned[i] == q;
      assert kept[i] in kept && Becomes(fs, kept[i], q);
    }
    if p :| p in paths && Becomes(fs, p, q) {
      assert p in kept;
      var i :| 0 <= i < |kept| && kept[i] == p;
      assert cleaned[i] == q;
      assert Lower(q) in Keys(Lower, cleaned);
      assert Lower(q) in Keys(Lower, ImportPaths(fs, paths));
    }
  }

  function JoinPaths(paths: seq<I.Path>): string {
    if paths == [] then "" else if |paths| == 1 then paths[0] else paths[0] + ", " + JoinPaths(paths[1..])
  }

  /** From files to the merged catalog: every file graph loads, no file is expanded twice, the catalog is
      the merge of the linear-scan parses of the expanded roots with distinct names, and every warning
      comes out, those of the files first and those of the paths last. */
  method LoadCatalog(fs: I.FileSystem, read: NumberReader, configured: seq<I.Path>)
    returns (catalog: Catalog, warnings: seq<LoadWarning>)
    ensures var paths := ImportPaths(fs, configured);
            var r := I.LoadRoots(fs, I.Tried(fs, paths), {});
            && NoRepeats(r.visited)
            && catalog == CatalogMerge.Merge(JoinPaths(paths), Mapped(ParsedWith(read), I.Texts(fs, r.sources)))
            && warnings == FileWarnings(read, I.Texts(fs, r.sources))
              + Mapped(FromLoader(), I.PathWarnings(fs, paths, {}))
    ensures UniqueKeys(CatalogMerge.VendorKey, catalog.vendors)
    ensures KeyedMerge.Each((v: Vendor) => CatalogMergeLaws.DistinctAttributes(v), catalog.vendors)
    ensures ParsedOptions.PlainFiles(fs) ==> CatalogMergeLaws.NormalCatalog(catalog)
  {
    var paths := NormalizeImportPaths(fs, configured);
    var source := JoinPaths(paths);
    var loader := new I.Loader(fs);
    var loaded, pathWarnings := loader.Load(paths);
    IncludeLaws.LoadVisitsOnce(fs, I.Tried(fs, paths), {});
    var catalogs;
    catalogs, warnings := ParseEach(read, loaded);
    catalog := CatalogMerge.MergeVendorDictionaryCatalogs(source, catalogs);
    CatalogMergeLaws.MergedNamesDiffer(source, catalogs);
    if ParsedOptions.PlainFiles(fs) {
      LoadedIsClean(fs, read, paths);
      CatalogMergeLaws.MergeIsNormal(source, catalogs);
    }
    warnings := warnings + Mapped(FromLoader(), pathWarnings);
  }

  /** The catalogs of a load, one per expanded root. */
  ghost function Parsed(fs: I.FileSystem, read: NumberReader, paths: seq<I.Path>): seq<Catalog> {
    Mapped(ParsedWith(read), I.Texts(fs, I.LoadRoots(fs, I.Tried(fs, paths), {}).sources))
  }

  lemma {:induction false} LoadedIsClean(fs: I.FileSystem, read: NumberReader, paths: seq<I.Path>)
    requires ParsedOptions.PlainFiles(fs)
    ensures CatalogMergeLaws.AllClean(Parsed(fs, read, paths))
  {
    var sources := I.LoadRoots(fs, I.Tried(fs, paths), {}).sources;
    var texts := I.Texts(fs, sources);
    ParsedOptions.TextsPlain(fs, sources);
    forall i | 0 <= i < |texts| ensures CatalogMergeLaws.CleanCatalog(ParsedWith(read)(texts[i])) {
      ParsedOptions.ParsedIsClean(read, texts[i].root, texts[i].text);
    }
  }

  /** So when no file has three commas in a row, a loaded catalog anywhere in a later merge stands for the
      catalogs it was loaded from: loading in parts and merging is loading at once. */
  lemma {:induction false} LoadedFlattens(fs: I.FileSystem, read: NumberReader, paths: seq<I.Path>, source: string,
                                          s: string, xs: seq<Catalog>, zs: seq<Catalog>)
    requires ParsedOptions.PlainFiles(fs)
    ensures var parsed := Parsed(fs, read, paths);
            CatalogMerge.Merge(s, xs + [CatalogMerge.Merge(source, parsed)] + zs)
              == CatalogMerge.Merge(s, xs + parsed + zs)
  {
    LoadedIsClean(fs, read, paths);
    CatalogMergeLaws.MergeFlattens(s, source, xs, Parsed(fs, read, paths), zs);
  }

  method ParseEach(read: NumberReader, loaded: seq<I.LoadedText>)
    returns (catalogs: seq<Catalog>, warnings: seq<LoadWarning>)
    ensures catalogs == Mapped(ParsedWith(read), loaded) && warnings == FileWarnings(read, loaded)
  {
    catalogs, warnings := [], [];
    for i := 0 to |loaded|
      invariant catalogs == Mapped(ParsedWith(read), loaded[..i]) && warnings == FileWarnings(read, loaded[..i])
    {
      assert loaded[..i + 1] == loaded[..i] + [loaded[i]];
      FileWarningsSnoc(read, loaded[..i], loaded[i]);
      var catalog := DictionaryParser.ParseVendorDictionaryCatalog(read, loaded[i].root, loaded[i].text);
      catalogs := catalogs + [catalog];
      warnings := warnings + WarningsOf(loaded[i], catalog);
    }
    assert loaded[..|loaded|] == loaded;
  }

  // ----- from an intake request to its record

  datatype Recorded = Recorded(report: Intake.Report, accepted: bool,
                               mappings: Option<seq<RuntimeMappings.RuntimeMapping>>)

  /** What an intake that ran to its end guarantees. */
  ghost predicate GatesHold(x: Recorded) {
    && (x.accepted <==> x.report.status == Intake.Ready)
    && (x.accepted <==> x.report.blockers == [])
    && (x.accepted <==> x.mappings.Some?)
    && (x.accepted ==>
        |x.mappings.value| == x.report.summary.runtimeDecodable && UniqueKeys(IntakeLaws.OctetOf, x.mappings.value))
  }

  /** With the modelled name normalisers, a request is handled exactly when the prefix slice is in bounds for
      every attribute of the selected vendor. Then it is accepted exactly when its report has no
      blockers, which is what its previewed status says, and exactly then it has a decoder table. */
  method RecordIntake(tables: ReleaseKeys.Tables, env: Intake.Environment, request: Intake.Request)
    returns (result: Option<Recorded>)
    requires ReleaseKeys.Complete(tables.vendors) && env.names == ProfileNames.NamesFrom(tables)
             && env.semantic == L.Semantic
    requires !Blank(env.registrySHA256) && forall rs :: !Blank(env.fingerprint(rs))
    ensures result.Some? <==> ProfileNames.NamesDefined(tables, IntakeLaws.CanonicalName(env, request),
                                                        IntakeLaws.Selected(env, request).attributes)
    ensures result.Some? ==> GatesHold(result.value)
  {
    var built := IntakeNames.BuildOrFail(tables, env, request);
    if built.None? {
      return None;
    }
    IntakeNames.TablesAreProper(tables, env);
    var recorded := Judge(env, request, built.value);
    result := Some(recorded);
  }

  method Judge(env: Intake.Environment, ghost request: Intake.Request, report: Intake.Report)
    returns (recorded: Recorded)
    requires IntakeLaws.Proper(env) && Intake.IsReport(env, request, report)
    ensures GatesHold(recorded) && recorded.report == report
  {
    var accepted := Intake.ValidateReport(report);
    var mappings := Intake.RuntimeMappingsOf(report);
    IntakeLaws.GatesAgree(env, request, report);
    if accepted {
      IntakeLaws.ReadyMappings(env, request, report);
    }
    recorded := Recorded(report, accepted, mappings);
  }

  // ----- from source rows to the reports

  /** The source of a registry and of its reports. */
  datatype Inputs = Inputs(names: Names, rows: seq<Entry>, annotations: seq<Entry>, profiles: seq<Profile>,
                           normalizePack: string -> string, vendors: seq<Vendor>, packs: seq<Pack>,
                           activeKeys: seq<string>, order: map<string, nat>, sha: string)

  /** The registry entries the inputs stand for. */
  function Entries(x: Inputs): seq<Entry> {
    Final(x.names, x.rows, x.annotations, x.profiles)
  }

  function EvidenceContext(x: Inputs, entries: seq<Entry>): E.Context {
    E.Context(x.names, x.normalizePack, x.vendors, C.ActiveSet(x.normalizePack, x.activeKeys), entries, x.order, x.sha)
  }

  /** The registry builds exactly when the source has rows with distinct normalised names; the evidence
      built on the rows with all annotations and passes applied is served exactly when the record IDs
      differ; and then the published number of ready mappings is the number that plain searches of the
      catalog and of those entries find ready. */
  method ServeEvidence(x: Inputs) returns (built: bool, report: E.Report, served: bool)
    requires !Blank(x.sha)
    ensures built <==> x.rows != [] && UniqueNames(x.names, x.rows)
    ensures built ==> E.IsReport(EvidenceContext(x, Entries(x)), x.packs, report)
    ensures built ==> (served <==> UniqueKeys(EL.IDs(EvidenceContext(x, Entries(x))), E.Jobs(x.packs)))
    ensures built && served ==> report.summary.ready == Count(EL.ReadyIn(EvidenceContext(x, Entries(x))),
                                                              E.Jobs(x.packs))
    ensures !built ==> !served
  {
    var registry, sourceCount, vendorCount, attributeCount;
    built, registry, sourceCount, vendorCount, attributeCount := BuildRegistry(x.names, x.rows, x.annotations,
                                                                               x.profiles);
    report := E.BuildReport(registry, EvidenceContext(x, registry.entries), x.packs, x.activeKeys);
    served := false;
    if built {
      served := E.ValidateReport(report);
      EL.AcceptedExactly(EvidenceContext(x, registry.entries), x.packs, report);
      if served {
        EL.ReadyCountExactly(EvidenceContext(x, registry.entries), x.packs, report);
      }
    }
  }

  /** What else a certification reads. */
  datatype Extras = Extras(semanticState: map<string, string>, grouped: Entry -> bool,
                           digest: seq<Certification.Record> -> string)

  function CertificationContext(x: Inputs, extras: Extras, entries: seq<Entry>,
                                evidence: seq<E.Record>): Certification.Context {
    Certification.Context(x.names, x.rows, entries, x.order, evidence, extras.semanticState, extras.grouped, x.sha,
                          extras.digest)
  }

  /** From source rows to the certification verdict: whenever the registry builds, the report is served
      exactly when the baseline has its fixed size, every partial row deserves certification by its
      entry among the rows with all annotations and passes applied, and the record IDs differ. */
  method ServeCertification(x: Inputs, extras: Extras)
    returns (built: bool, evidence: E.Report, report: Certification.Report, served: bool)
    requires !Blank(x.sha)
    ensures built <==> x.rows != [] && UniqueNames(x.names, x.rows)
    ensures built ==> E.IsReport(EvidenceContext(x, Entries(x)), x.packs, evidence)
    ensures built ==> (served <==> Certifies(CertificationContext(x, extras, Entries(x), evidence.records)))
    ensures !built ==> !served
  {
    var registry, sourceCount, vendorCount, attributeCount;
    built, registry, sourceCount, vendorCount, attributeCount := BuildRegistry(x.names, x.rows, x.annotations,
                                                                               x.profiles);
    evidence := E.BuildReport(registry, EvidenceContext(x, registry.entries), x.packs, x.activeKeys);
    var ctx := CertificationContext(x, extras, registry.entries, evidence.records);
    report := Certification.BuildReport(ctx, registry);
    served := false;
    if built {
      served := Certification.ValidateReport(report);
      Certification.AcceptedExactly(ctx, report);
    }
  }

  ghost predicate Certifies(ctx: Certification.Context) {
    && |Certification.Baseline(ctx.rows)| == Certification.BASELINE_COUNT
    && All(Certification.DeservesIn(ctx), Certification.Baseline(ctx.rows))
    && UniqueKeys(Certification.IDOf, Mapped(Certification.RecordOf(ctx), Certification.Baseline(ctx.rows)))
  }

  // ----- from long-tail rows to decoders

  /** Source rows the long-tail pass takes and a one-octet type can carry. */
  predicate LongTailRow(vendors: set<string>, e: Entry) {
    Lower(Trim(e.vendor)) in vendors && EqualFold(e.source, L.SOURCE) && 1 <= e.number <= 255
  }

  /** When the long-tail pass comes last, as it does in every construction, each long-tail source row with a
      number in 1..255 has its wire key in the runtime table of the finished registry, whatever the
      annotations and the passes before did. */
  lemma {:induction false} LongTailRowsDecode(names: Names, rows: seq<Entry>, annotations: seq<Entry>,
                                              profiles: seq<Profile>, vendors: set<string>,
                                              describe: (Entry, string) -> string, order: map<string, nat>, i: nat)
    requires UniqueNames(names, rows) && i < |rows| && LongTailRow(vendors, rows[i])
    ensures var final := Final(names, rows, annotations, profiles + [L.RuntimeProfile(vendors, describe)]);
            WireKey(rows[i].pen, rows[i].number) in Certification.RuntimeWires(RuntimeMappings.Table(order, final))
  {
    var last := L.RuntimeProfile(vendors, describe);
    var before, final := Final(names, rows, annotations, profiles), Final(names, rows, annotations, profiles + [last]);
    assert (profiles + [last])[..|profiles|] == profiles;
    FinalEvolves(names, rows, annotations, profiles, 0);
    assert annotations[..0] == [];
    assert Evolves(rows[i], before[i]);
    LongTailEntryDecodes(vendors, describe, before[i]);
    assert final[i] == ProfileEntry(last, before[i]) && final[i] in final;
    L.ProfileKeepsWire(last, before[i]);
    Certification.RuntimeWiresExactly(order, final, WireKey(rows[i].pen, rows[i].number));
  }

  lemma {:induction false} LongTailEntryDecodes(vendors: set<string>, describe: (Entry, string) -> string, e: Entry)
    requires LongTailRow(vendors, e)
    ensures RuntimeMappings.Eligible(ProfileEntry(L.RuntimeProfile(vendors, describe), e))
  {
    L.RuntimePassCompletes(vendors, describe, e);
    L.ProfileKeepsWire(L.RuntimeProfile(vendors, describe), e);
  }
}

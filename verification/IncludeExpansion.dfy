/** `$INCLUDE` expansion and the shared set of seen files (configs/vendor_dictionary_loader.go).

    A path stands for its absolute form. The file system is fixed for one load: the text of every
    readable file, and what an include argument written in a file matches. */
module IncludeExpansion {
  import opened Text
  import opened Sequences
  import opened Wrappers

  type Path = string

  /** What walking a directory meets, outside hidden directories: a path that cannot be visited, or a file
      with its base name. */
  datatype DirEntry = Failed(path: Path) | Found(path: Path, name: string)

  /** `unreadable` are files that exist but cannot be read; `clean` is the lexical path cleaning. */
  datatype FileSystem = FileSystem(files: map<Path, string>, glob: (Path, string) -> seq<Path>, clean: Path -> Path,
                                   unreadable: set<Path>, directories: map<Path, seq<DirEntry>>)

  datatype Warning =
    | UnresolvedInclude(line: nat, argument: string, within: Path)
    | UnreadableInclude(line: nat, file: Path)
    | UnreadableRoot(file: Path)
    | UnavailablePath(path: Path)

  /** Where a stretch of output came from: line `index` of `path`, or the newline written after the
      expansion of the included file `path`. */
  datatype Piece = Line(path: Path, index: nat) | Break(path: Path)

  /** The outcome of expanding: output, warnings, files expanded in order, and the seen set after. */
  datatype Expansion = Expansion(pieces: seq<Piece>, warnings: seq<Warning>, visited: seq<Path>, seen: set<Path>)

  function Lines(fs: FileSystem, path: Path): seq<string>
    requires path in fs.files
  {
    Split(fs.files[path], '\n')
  }

  function IncludeArgument(line: string): Option<string> {
    var fields := Fields(StripComment(line));
    if |fields| >= 2 && EqualFold(fields[0], "$INCLUDE") then Some(fields[1]) else None
  }

  /** The sorted matches of an include argument. */
  function Matches(fs: FileSystem, path: Path, argument: string): seq<Path> {
    StableSort(NotAfterText, fs.glob(path, argument))
  }

  // ----- the value of an expansion

  function Then(a: Expansion, b: Expansion): Expansion {
    Expansion(a.pieces + b.pieces, a.warnings + b.warnings, a.visited + b.visited, b.seen)
  }

  function Warn(w: Warning, rest: Expansion): Expansion {
    rest.(warnings := [w] + rest.warnings)
  }

  lemma {:induction false} Unseen(fs: FileSystem, a: set<Path>, b: set<Path>)
    requires a <= b
    ensures |fs.files.Keys - b| <= |fs.files.Keys - a|
  {
    var x, y := fs.files.Keys - a, fs.files.Keys - b;
    assert x == y + (x - y);
  }

  lemma {:induction false} UnseenShrinks(fs: FileSystem, a: set<Path>, b: set<Path>, file: Path)
    requires a <= b && file in fs.files && file in b && file !in a
    ensures |fs.files.Keys - b| < |fs.files.Keys - a|
  {
    var x, y := fs.files.Keys - a, fs.files.Keys - b;
    assert x == y + (x - y) && file in x - y;
  }

  /** Lines `i..` of `path`, given the files seen so far. */
  function ExpandFrom(fs: FileSystem, path: Path, i: nat, seen: set<Path>): (r: Expansion)
    requires path in fs.files && i <= |Lines(fs, path)|
    ensures seen <= r.seen
    decreases |fs.files.Keys - seen|, |Lines(fs, path)| - i, 1, 0
  {
    if i == |Lines(fs, path)| then Expansion([], [], [], seen)
    else
      match IncludeArgument(Lines(fs, path)[i])
      case None =>
        var rest := ExpandFrom(fs, path, i + 1, seen);
        rest.(pieces := [Line(path, i)] + rest.pieces)
      case Some(argument) =>
        var matches := Matches(fs, path, argument);
        if matches == [] then
          Warn(UnresolvedInclude(i + 1, argument, path), ExpandFrom(fs, path, i + 1, seen))
        else
          var here := ExpandMatches(fs, path, i, matches, seen);
          Unseen(fs, seen, here.seen);
          Then(here, ExpandFrom(fs, path, i + 1, here.seen))
  }

  /** The matches of the include on line `i` of `path`. */
  function ExpandMatches(fs: FileSystem, path: Path, i: nat, matches: seq<Path>, seen: set<Path>): (r: Expansion)
    requires path in fs.files && i < |Lines(fs, path)|
    ensures seen <= r.seen
    decreases |fs.files.Keys - seen|, |Lines(fs, path)| - i, 0, |matches|
  {
    if matches == [] then Expansion([], [], [], seen)
    else if matches[0] !in fs.files then
      Warn(UnreadableInclude(i + 1, matches[0]), ExpandMatches(fs, path, i, matches[1..], seen))
    else if matches[0] in seen then
      ExpandMatches(fs, path, i, matches[1..], seen)
    else
      UnseenShrinks(fs, seen, seen + {matches[0]}, matches[0]);
      var nested := Nested(matches[0], ExpandFrom(fs, matches[0], 0, seen + {matches[0]}));
      Unseen(fs, seen, nested.seen);
      Then(nested, ExpandMatches(fs, path, i, matches[1..], nested.seen))
  }

  /** An included file's expansion, followed by one newline. */
  function Nested(file: Path, body: Expansion): Expansion {
    Expansion(body.pieces + [Break(file)], body.warnings, [file] + body.visited, body.seen)
  }

  /** The text of a list of pieces. */
  function Render(fs: FileSystem, pieces: seq<Piece>): string {
    if pieces == [] then ""
    else RenderPiece(fs, pieces[0]) + Render(fs, pieces[1..])
  }

  function RenderPiece(fs: FileSystem, piece: Piece): string {
    LineText(fs, piece) + "\n"
  }

  /** The line of output a piece is. */
  function LineText(fs: FileSystem, piece: Piece): string {
    if piece.Line? && piece.path in fs.files && piece.index < |Lines(fs, piece.path)|
    then Lines(fs, piece.path)[piece.index] else ""
  }

  lemma {:induction false} RenderConcat(fs: FileSystem, a: seq<Piece>, b: seq<Piece>)
    ensures Render(fs, a + b) == Render(fs, a) + Render(fs, b)
  {
    if a == [] {
      assert a + b == b;
    } else {
      assert (a + b)[1..] == a[1..] + b;
      RenderConcat(fs, a[1..], b);
    }
  }

  lemma {:induction false} Regroup(a: string, b: string, c: string)
    ensures a + (b + c) == (a + b) + c
  {
  }

  lemma {:induction false} PlainLineStep(fs: FileSystem, path: Path, i: nat, seen: set<Path>)
    requires path in fs.files && i < |Lines(fs, path)| && IncludeArgument(Lines(fs, path)[i]).None?
    ensures var r, rest := ExpandFrom(fs, path, i, seen), ExpandFrom(fs, path, i + 1, seen);
            && Render(fs, r.pieces) == Lines(fs, path)[i] + "\n" + Render(fs, rest.pieces)
            && r.warnings == rest.warnings && r.seen == rest.seen
  {
    var rest := ExpandFrom(fs, path, i + 1, seen);
    RenderConcat(fs, [Line(path, i)], rest.pieces);
    assert Render(fs, [Line(path, i)]) == Lines(fs, path)[i] + "\n";
  }

  lemma {:induction false} IncludeLineStep(fs: FileSystem, path: Path, i: nat, seen: set<Path>)
    requires path in fs.files && i < |Lines(fs, path)| && IncludeArgument(Lines(fs, path)[i]).Some?
    requires Matches(fs, path, IncludeArgument(Lines(fs, path)[i]).value) != []
    ensures var here := ExpandMatches(fs, path, i, Matches(fs, path, IncludeArgument(Lines(fs, path)[i]).value), seen);
            var r, rest := ExpandFrom(fs, path, i, seen), ExpandFrom(fs, path, i + 1, here.seen);
            && Render(fs, r.pieces) == Render(fs, here.pieces) + Render(fs, rest.pieces)
            && r.warnings == here.warnings + rest.warnings && r.seen == rest.seen
  {
    var here := ExpandMatches(fs, path, i, Matches(fs, path, IncludeArgument(Lines(fs, path)[i]).value), seen);
    RenderConcat(fs, here.pieces, ExpandFrom(fs, path, i + 1, here.seen).pieces);
  }

  lemma {:induction false} NestedStep(fs: FileSystem, path: Path, i: nat, matches: seq<Path>, seen: set<Path>)
    requires path in fs.files && i < |Lines(fs, path)|
    requires matches != [] && matches[0] in fs.files && matches[0] !in seen
    ensures var body := ExpandFrom(fs, matches[0], 0, seen + {matches[0]});
            var r := ExpandMatches(fs, path, i, matches, seen);
            var rest := ExpandMatches(fs, path, i, matches[1..], body.seen);
            && Render(fs, r.pieces) == Render(fs, body.pieces) + "\n" + Render(fs, rest.pieces)
            && r.warnings == body.warnings + rest.warnings && r.seen == rest.seen
  {
    var body := ExpandFrom(fs, matches[0], 0, seen + {matches[0]});
    RenderConcat(fs, Nested(matches[0], body).pieces, ExpandMatches(fs, path, i, matches[1..], body.seen).pieces);
    RenderConcat(fs, body.pieces, [Break(matches[0])]);
    assert Render(fs, [Break(matches[0])]) == "\n";
  }

  // ----- one load over several roots

  /** One root that produced text. */
  datatype Source = Source(root: Path, pieces: seq<Piece>, warnings: seq<Warning>)

  datatype Loaded = Loaded(sources: seq<Source>, warnings: seq<Warning>, visited: seq<Path>, seen: set<Path>)

  /** Roots are tried in order over one shared seen set; an unreadable root is marked seen as well. */
  function LoadRoots(fs: FileSystem, roots: seq<Path>, seen: set<Path>): (r: Loaded)
    ensures seen <= r.seen
  {
    if roots == [] then Loaded([], [], [], seen)
    else if roots[0] in seen then LoadRoots(fs, roots[1..], seen)
    else if roots[0] !in fs.files then
      var rest := LoadRoots(fs, roots[1..], seen + {roots[0]});
      rest.(warnings := [UnreadableRoot(roots[0])] + rest.warnings)
    else
      var body := ExpandFrom(fs, roots[0], 0, seen + {roots[0]});
      var rest := LoadRoots(fs, roots[1..], body.seen);
      Loaded([Source(roots[0], body.pieces, body.warnings)] + rest.sources, rest.warnings,
             [roots[0]] + body.visited + rest.visited, rest.seen)
  }

  // ----- the loader as it runs

  /** The loader, whose `seenFiles` is shared by every nested and every root expansion. */
  class Loader {
    const fs: FileSystem
    var seenFiles: set<Path>

    constructor (fs: FileSystem)
      ensures this.fs == fs && seenFiles == {}
    {
      this.fs := fs;
      seenFiles := {};
    }

    /** `expandVendorDictionaryIncludes`. */
    method ExpandIncludes(path: Path, text: string) returns (expanded: string, warnings: seq<Warning>)
      requires path in fs.files && text == fs.files[path]
      modifies this`seenFiles
      ensures var r := ExpandFrom(fs, path, 0, old(seenFiles));
              expanded == Render(fs, r.pieces) && warnings == r.warnings && seenFiles == r.seen
      decreases |fs.files.Keys - seenFiles|, 2
    {
      var lines := Split(text, '\n');
      ghost var whole := ExpandFrom(fs, path, 0, seenFiles);
      expanded, warnings := "", [];
      for i := 0 to |lines|
        invariant old(seenFiles) <= seenFiles
        invariant var r := ExpandFrom(fs, path, i, seenFiles);
                  && expanded + Render(fs, r.pieces) == Render(fs, whole.pieces)
                  && warnings + r.warnings == whole.warnings && r.seen == whole.seen
      {
        Unseen(fs, old(seenFiles), seenFiles);
        var part, partWarnings := ExpandLine(path, i, lines[i]);
        Regroup(expanded, part, Render(fs, ExpandFrom(fs, path, i + 1, seenFiles).pieces));
        expanded := expanded + part;
        warnings := warnings + partWarnings;
      }
    }

    /** One turn of the loop over lines. */
    method ExpandLine(path: Path, i: nat, line: string) returns (part: string, warnings: seq<Warning>)
      requires path in fs.files && i < |Lines(fs, path)| && line == Lines(fs, path)[i]
      modifies this`seenFiles
      ensures old(seenFiles) <= seenFiles
      ensures var r, rest := ExpandFrom(fs, path, i, old(seenFiles)), ExpandFrom(fs, path, i + 1, seenFiles);
              && Render(fs, r.pieces) == part + Render(fs, rest.pieces)
              && r.warnings == warnings + rest.warnings && r.seen == rest.seen
      decreases |fs.files.Keys - seenFiles|, 1
    {
      match IncludeArgument(line) {
        case None =>
          PlainLineStep(fs, path, i, seenFiles);
          part, warnings := line + "\n", [];
        case Some(argument) =>
          var matches := Matches(fs, path, argument);
          if matches == [] {
            part, warnings := "", [UnresolvedInclude(i + 1, argument, path)];
          } else {
            IncludeLineStep(fs, path, i, seenFiles);
            part, warnings := ExpandEach(path, i, matches);
          }
      }
    }

    /** The loop over the matches of one include line. */
    method ExpandEach(ghost path: Path, i: nat, matches: seq<Path>) returns (expanded: string, warnings: seq<Warning>)
      requires path in fs.files && i < |Lines(fs, path)|
      modifies this`seenFiles
      ensures var r := ExpandMatches(fs, path, i, matches, old(seenFiles));
              expanded == Render(fs, r.pieces) && warnings == r.warnings && seenFiles == r.seen
      decreases |fs.files.Keys - seenFiles|, 0
    {
      ghost var whole := ExpandMatches(fs, path, i, matches, seenFiles);
      expanded, warnings := "", [];
      for k := 0 to |matches|
        invariant old(seenFiles) <= seenFiles
        invariant var r := ExpandMatches(fs, path, i, matches[k..], seenFiles);
                  && expanded + Render(fs, r.pieces) == Render(fs, whole.pieces)
                  && warnings + r.warnings == whole.warnings && r.seen == whole.seen
      {
        var file := matches[k];
        assert matches[k..][0] == file && matches[k..][1..] == matches[k + 1..];
        if file !in fs.files {
          warnings := warnings + [UnreadableInclude(i + 1, file)];
        } else if file !in seenFiles {
          NestedStep(fs, path, i, matches[k..], seenFiles);
          seenFiles := seenFiles + {file};
          UnseenShrinks(fs, old(seenFiles), seenFiles, file);
          var text, nestedWarnings := ExpandIncludes(file, fs.files[file]);
          Regroup(expanded, text + "\n", Render(fs, ExpandMatches(fs, path, i, matches[k + 1..], seenFiles).pieces));
          expanded := expanded + (text + "\n");
          warnings := warnings + nestedWarnings;
        }
      }
    }

    /** `loadVendorDictionaryFile`, up to parsing. */
    method LoadFile(path: Path) returns (loaded: seq<LoadedText>, warnings: seq<Warning>)
      modifies this`seenFiles
      ensures var r := LoadRoots(fs, [path], old(seenFiles));
              loaded == Texts(fs, r.sources) && warnings == r.warnings && seenFiles == r.seen
    {
      assert [path][1..] == [];
      loaded, warnings := [], [];
      if path !in seenFiles {
        seenFiles := seenFiles + {path};
        if path !in fs.files {
          warnings := [UnreadableRoot(path)];
        } else {
          var text, fileWarnings := ExpandIncludes(path, fs.files[path]);
          loaded := [LoadedText(path, text, fileWarnings)];
        }
      }
    }

    /** The file loop of `loadVendorDictionaryDir`. */
    method LoadFiles(roots: seq<Path>) returns (loaded: seq<LoadedText>, warnings: seq<Warning>)
      modifies this`seenFiles
      ensures var r := LoadRoots(fs, roots, old(seenFiles));
              loaded == Texts(fs, r.sources) && warnings == r.warnings && seenFiles == r.seen
    {
      loaded, warnings := [], [];
      ghost var whole := LoadRoots(fs, roots, seenFiles);
      for k := 0 to |roots|
        invariant var r := LoadRoots(fs, roots[k..], seenFiles);
                  && loaded + Texts(fs, r.sources) == Texts(fs, whole.sources)
                  && warnings + r.warnings == whole.warnings && r.seen == whole.seen
      {
        LoadRootsStep(fs, roots[k..], seenFiles);
        assert roots[k..][1..] == roots[k + 1..];
        var here, hereWarnings := LoadFile(roots[k]);
        loaded, warnings := loaded + here, warnings + hereWarnings;
      }
    }

    /** `loadVendorDictionaryPath`: a path that does not exist is warned about and not marked as seen. */
    method LoadPath(path: Path) returns (loaded: seq<LoadedText>, warnings: seq<Warning>)
      modifies this`seenFiles
      ensures var r := LoadRoots(fs, FilesAt(fs, path), old(seenFiles));
              loaded == Texts(fs, r.sources) && warnings == WarningsAt(fs, path, old(seenFiles)) && seenFiles == r.seen
    {
      if path in fs.directories {
        var files, failures := Walk(fs.directories[path]);
        loaded, warnings := LoadFiles(StableSort(NotAfterText, files));
        warnings := failures + warnings;
      } else if path in fs.files || path in fs.unreadable {
        loaded, warnings := LoadFile(path);
      } else {
        loaded, warnings := [], [UnavailablePath(path)];
      }
    }

    /** The path loop of `LoadVendorDictionaryCatalog`. */
    method Load(paths: seq<Path>) returns (loaded: seq<LoadedText>, warnings: seq<Warning>)
      modifies this`seenFiles
      ensures var r := LoadRoots(fs, Tried(fs, paths), old(seenFiles));
              loaded == Texts(fs, r.sources) && warnings == PathWarnings(fs, paths, old(seenFiles))
                && seenFiles == r.seen
    {
      loaded, warnings := [], [];
      for k := 0 to |paths|
        invariant var r := LoadRoots(fs, Tried(fs, paths[..k]), old(seenFiles));
                  loaded == Texts(fs, r.sources) && warnings == PathWarnings(fs, paths[..k], old(seenFiles))
                    && seenFiles == r.seen
      {
        assert paths[..k + 1][..k] == paths[..k];
        LoadRootsConcat(fs, Tried(fs, paths[..k]), FilesAt(fs, paths[k]), old(seenFiles));
        var here, hereWarnings := LoadPath(paths[k]);
        loaded, warnings := loaded + here, warnings + hereWarnings;
      }
      assert paths[..|paths|] == paths;
    }
  }

  // ----- the files a list of paths stands for

  /** `dictionaryFileName`. */
  predicate IsDictionaryName(name: string) {
    var n := Lower(Trim(name));
    n == "dictionary" || "dictionary." <= n || EndsWith(n, ".dictionary") || EndsWith(n, ".dictionery")
  }

  predicate EndsWith(s: string, suffix: string) {
    |suffix| <= |s| && s[|s| - |suffix|..] == suffix
  }

  predicate IsDictionaryFile(e: DirEntry) {
    e.Found? && IsDictionaryName(e.name)
  }

  predicate HasFailed(e: DirEntry) {
    e.Failed?
  }

  function PathOf(e: DirEntry): Path {
    e.path
  }

  function FailureOf(e: DirEntry): Warning {
    UnavailablePath(e.path)
  }

  function DictionaryFiles(entries: seq<DirEntry>): seq<Path> {
    Mapped(PathOf, Filter(IsDictionaryFile, entries))
  }

  function WalkFailures(entries: seq<DirEntry>): seq<Warning> {
    Mapped(FailureOf, Filter(HasFailed, entries))
  }

  /** The walk callback of `loadVendorDictionaryDir`, over everything the walk meets. */
  method Walk(entries: seq<DirEntry>) returns (files: seq<Path>, warnings: seq<Warning>)
    ensures files == DictionaryFiles(entries) && warnings == WalkFailures(entries)
  {
    files := Collect(IsDictionaryFile, PathOf, entries);
    warnings := Collect(HasFailed, FailureOf, entries);
  }

  /** The files a path stands for, without sorting: a directory's dictionary files, or itself if it exists. */
  predicate StandsFor(fs: FileSystem, path: Path, q: Path) {
    if path in fs.directories then exists e <- fs.directories[path] :: IsDictionaryFile(e) && e.path == q
    else q == path && (path in fs.files || path in fs.unreadable)
  }

  /** The files tried for one path: the sorted files of a directory, the path itself if it exists. */
  function FilesAt(fs: FileSystem, path: Path): seq<Path> {
    if path in fs.directories then StableSort(NotAfterText, DictionaryFiles(fs.directories[path]))
    else if path in fs.files || path in fs.unreadable then [path]
    else []
  }

  function Tried(fs: FileSystem, paths: seq<Path>): seq<Path> {
    if paths == [] then [] else Tried(fs, paths[..|paths| - 1]) + FilesAt(fs, paths[|paths| - 1])
  }

  function WarningsAt(fs: FileSystem, path: Path, seen: set<Path>): seq<Warning> {
    var tried := LoadRoots(fs, FilesAt(fs, path), seen).warnings;
    if path in fs.directories then WalkFailures(fs.directories[path]) + tried
    else if path in fs.files || path in fs.unreadable then tried
    else [UnavailablePath(path)]
  }

  function PathWarnings(fs: FileSystem, paths: seq<Path>, seen: set<Path>): seq<Warning> {
    if paths == [] then []
    else
      var before := paths[..|paths| - 1];
      PathWarnings(fs, before, seen) + WarningsAt(fs, paths[|paths| - 1], LoadRoots(fs, Tried(fs, before), seen).seen)
  }

  datatype LoadedText = LoadedText(root: Path, text: string, warnings: seq<Warning>)

  function Texts(fs: FileSystem, sources: seq<Source>): seq<LoadedText> {
    if sources == [] then []
    else [LoadedText(sources[0].root, Render(fs, sources[0].pieces), sources[0].warnings)] + Texts(fs, sources[1..])
  }

  lemma {:induction false} TextsConcat(fs: FileSystem, a: seq<Source>, b: seq<Source>)
    ensures Texts(fs, a + b) == Texts(fs, a) + Texts(fs, b)
  {
    if a == [] {
      assert a + b == b;
    } else {
      assert (a + b)[1..] == a[1..] + b;
      TextsConcat(fs, a[1..], b);
    }
  }

  lemma {:induction false} LoadOne(fs: FileSystem, root: Path, seen: set<Path>)
    ensures var r := LoadRoots(fs, [root], seen);
            var none := Expansion([], [], [], seen);
            var body := if root in fs.files then ExpandFrom(fs, root, 0, seen + {root}) else none;
            if root in seen then r == Loaded([], [], [], seen)
            else if root !in fs.files then r == Loaded([], [UnreadableRoot(root)], [], seen + {root})
            else r == Loaded([Source(root, body.pieces, body.warnings)], [], [root] + body.visited, body.seen)
  {
    assert [root][1..] == [];
    assert LoadRoots(fs, [], seen) == Loaded([], [], [], seen);
    assert LoadRoots(fs, [], seen + {root}) == Loaded([], [], [], seen + {root});
    if root in fs.files {
      var body := ExpandFrom(fs, root, 0, seen + {root});
      assert LoadRoots(fs, [], body.seen) == Loaded([], [], [], body.seen);
      assert [root] + body.visited + [] == [root] + body.visited;
    }
  }

  lemma {:induction false} LoadRootsStep(fs: FileSystem, roots: seq<Path>, seen: set<Path>)
    requires roots != []
    ensures var first := LoadRoots(fs, [roots[0]], seen);
            var rest, all := LoadRoots(fs, roots[1..], first.seen), LoadRoots(fs, roots, seen);
            && all.sources == first.sources + rest.sources
            && Texts(fs, all.sources) == Texts(fs, first.sources) + Texts(fs, rest.sources)
            && all.warnings == first.warnings + rest.warnings && all.visited == first.visited + rest.visited
            && all.seen == rest.seen
  {
    var first := LoadRoots(fs, [roots[0]], seen);
    LoadOne(fs, roots[0], seen);
    var rest := LoadRoots(fs, roots[1..], first.seen);
    assert LoadRoots(fs, roots, seen).sources == first.sources + rest.sources;
    TextsConcat(fs, first.sources, rest.sources);
  }

  /** The texts of a load and the seen set after it. */
  function Outcome(fs: FileSystem, roots: seq<Path>, seen: set<Path>): (seq<LoadedText>, set<Path>) {
    var r := LoadRoots(fs, roots, seen);
    (Texts(fs, r.sources), r.seen)
  }

  function Append(x: (seq<LoadedText>, set<Path>), y: (seq<LoadedText>, set<Path>)): (seq<LoadedText>, set<Path>) {
    (x.0 + y.0, y.1)
  }

  lemma {:induction false} AppendAssociative(x: (seq<LoadedText>, set<Path>), y: (seq<LoadedText>, set<Path>),
                                             z: (seq<LoadedText>, set<Path>))
    ensures Append(x, Append(y, z)) == Append(Append(x, y), z)
  {
    assert x.0 + (y.0 + z.0) == (x.0 + y.0) + z.0;
  }

  lemma {:induction false} OutcomeNone(fs: FileSystem, seen: set<Path>)
    ensures Outcome(fs, [], seen) == ([], seen)
  {
  }

  lemma {:induction false} LoadRootsConcat(fs: FileSystem, a: seq<Path>, b: seq<Path>, seen: set<Path>)
    ensures Outcome(fs, a + b, seen) == Append(Outcome(fs, a, seen), Outcome(fs, b, Outcome(fs, a, seen).1))
    decreases |a|
  {
    if a == [] {
      OutcomeNone(fs, seen);
      assert a + b == b;
      assert [] + Outcome(fs, b, seen).0 == Outcome(fs, b, seen).0;
    } else {
      assert (a + b)[0] == a[0] && (a + b)[1..] == a[1..] + b;
      var first := Outcome(fs, [a[0]], seen);
      OutcomeStep(fs, a, seen);
      OutcomeStep(fs, a + b, seen);
      LoadRootsConcat(fs, a[1..], b, first.1);
      var rest := Outcome(fs, a[1..], first.1);
      AppendAssociative(first, rest, Outcome(fs, b, rest.1));
    }
  }

  lemma {:induction false} OutcomeStep(fs: FileSystem, roots: seq<Path>, seen: set<Path>)
    requires roots != []
    ensures var first := Outcome(fs, [roots[0]], seen);
            Outcome(fs, roots, seen) == Append(first, Outcome(fs, roots[1..], first.1))
  {
    LoadRootsStep(fs, roots, seen);
  }
}

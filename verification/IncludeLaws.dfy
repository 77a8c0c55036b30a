/** What include expansion guarantees for every file graph, cyclic or not: each file is expanded at
    most once per load, its own lines come out once and in order, and the files seen are exactly the
    roots tried together with the readable files reachable from them. */
module IncludeLaws {
  import opened Text
  import opened Sequences
  import opened IncludeExpansion

  function ToSet(paths: seq<Path>): set<Path> {
    set p | p in paths
  }

  /** What a file contributes itself: its lines from `i` on that are not includes. */
  function OwnLines(fs: FileSystem, path: Path, i: nat): seq<Piece>
    requires path in fs.files && i <= |Lines(fs, path)|
    decreases |Lines(fs, path)| - i
  {
    if i == |Lines(fs, path)| then []
    else (if IncludeArgument(Lines(fs, path)[i]).None? then [Line(path, i)] else []) + OwnLines(fs, path, i + 1)
  }

  /** The pieces of an output that come from file `q`, in output order. */
  function From(pieces: seq<Piece>, q: Path): seq<Piece> {
    if pieces == [] then []
    else (if pieces[0].path == q then [pieces[0]] else []) + From(pieces[1..], q)
  }

  lemma {:induction false} FromConcat(a: seq<Piece>, b: seq<Piece>, q: Path)
    ensures From(a + b, q) == From(a, q) + From(b, q)
  {
    if a == [] {
      assert a + b == b;
    } else {
      var head := if a[0].path == q then [a[0]] else [];
      assert (a + b)[0] == a[0] && (a + b)[1..] == a[1..] + b;
      calc {
        From(a + b, q);
        head + From(a[1..] + b, q);
        { FromConcat(a[1..], b, q); }
        head + (From(a[1..], q) + From(b, q));
        (head + From(a[1..], q)) + From(b, q);
      }
    }
  }

  // ----- every file is expanded at most once

  /** `r` expanded new readable files only, each once, and recorded exactly those. */
  ghost predicate VisitsOnce(fs: FileSystem, seen: set<Path>, visited: seq<Path>, after: set<Path>) {
    && NoRepeats(visited)
    && (forall v <- visited :: v !in seen && v in fs.files)
    && after == seen + ToSet(visited)
  }

  lemma {:induction false} VisitsOnceThen(fs: FileSystem, s0: set<Path>, a: seq<Path>, s1: set<Path>, b: seq<Path>,
                                          s2: set<Path>)
    requires VisitsOnce(fs, s0, a, s1) && VisitsOnce(fs, s1, b, s2)
    ensures VisitsOnce(fs, s0, a + b, s2)
  {
    assert ToSet(a + b) == ToSet(a) + ToSet(b);
    forall i, j | 0 <= i < j < |a + b| ensures (a + b)[i] != (a + b)[j] {
      if i < |a| <= j {
        assert a[i] in ToSet(a) && b[j - |a|] in b;
      }
    }
  }

  lemma {:induction false} VisitsNothing(fs: FileSystem, seen: set<Path>)
    ensures VisitsOnce(fs, seen, [], seen)
  {
  }

  /** An included file, what it expands, and what the rest of the matches expands. */
  lemma {:induction false} MatchVisitsOnce(fs: FileSystem, seen: set<Path>, file: Path, body: Expansion,
                                           rest: Expansion)
    requires file in fs.files && file !in seen
    requires VisitsOnce(fs, seen + {file}, body.visited, body.seen)
             && VisitsOnce(fs, body.seen, rest.visited, rest.seen)
    ensures var r := Then(Nested(file, body), rest); VisitsOnce(fs, seen, r.visited, r.seen)
  {
    VisitsOnceThen(fs, seen, [file], seen + {file}, body.visited, body.seen);
    VisitsOnceThen(fs, seen, [file] + body.visited, body.seen, rest.visited, rest.seen);
  }

  /** Lines `i..` of `path` keep the law. */
  ghost predicate VisitsFrom(fs: FileSystem, path: Path, i: nat, seen: set<Path>)
    requires path in fs.files && i <= |Lines(fs, path)|
  {
    var r := ExpandFrom(fs, path, i, seen);
    VisitsOnce(fs, seen, r.visited, r.seen)
  }

  lemma {:induction false} VisitsPast(fs: FileSystem, path: Path, i: nat, seen: set<Path>)
    requires path in fs.files && i < |Lines(fs, path)| && VisitsFrom(fs, path, i + 1, seen)
    requires var argument := IncludeArgument(Lines(fs, path)[i]);
             argument.None? || Matches(fs, path, argument.value) == []
    ensures VisitsFrom(fs, path, i, seen)
  {
  }

  lemma {:induction false} VisitsInclude(fs: FileSystem, path: Path, i: nat, matches: seq<Path>, seen: set<Path>)
    requires path in fs.files && i < |Lines(fs, path)|
    requires var argument := IncludeArgument(Lines(fs, path)[i]);
             argument.Some? && matches == Matches(fs, path, argument.value) != []
    requires var here := ExpandMatches(fs, path, i, matches, seen); VisitsOnce(fs, seen, here.visited, here.seen)
    requires VisitsFrom(fs, path, i + 1, ExpandMatches(fs, path, i, matches, seen).seen)
    ensures VisitsFrom(fs, path, i, seen)
  {
    var here := ExpandMatches(fs, path, i, matches, seen);
    var rest := ExpandFrom(fs, path, i + 1, here.seen);
    VisitsOnceThen(fs, seen, here.visited, here.seen, rest.visited, rest.seen);
    assert ExpandFrom(fs, path, i, seen) == Then(here, rest);
  }

  lemma {:induction false} VisitsEnd(fs: FileSystem, path: Path, seen: set<Path>)
    requires path in fs.files
    ensures VisitsFrom(fs, path, |Lines(fs, path)|, seen)
  {
    VisitsNothing(fs, seen);
  }

  lemma {:induction false} ExpandFromVisitsOnce(fs: FileSystem, path: Path, i: nat, seen: set<Path>)
    requires path in fs.files && i <= |Lines(fs, path)|
    ensures VisitsFrom(fs, path, i, seen)
    decreases |fs.files.Keys - seen|, |Lines(fs, path)| - i, 1, 0
  {
    if i == |Lines(fs, path)| {
      VisitsEnd(fs, path, seen);
    } else {
      var argument := IncludeArgument(Lines(fs, path)[i]);
      var matches := if argument.Some? then Matches(fs, path, argument.value) else [];
      if matches == [] {
        ExpandFromVisitsOnce(fs, path, i + 1, seen);
        VisitsPast(fs, path, i, seen);
      } else {
        var after := ExpandMatches(fs, path, i, matches, seen).seen;
        Unseen(fs, seen, after);
        ExpandMatchesVisitsOnce(fs, path, i, matches, seen);
        ExpandFromVisitsOnce(fs, path, i + 1, after);
        VisitsInclude(fs, path, i, matches, seen);
      }
    }
  }

  lemma {:induction false} ExpandMatchesVisitsOnce(fs: FileSystem, path: Path, i: nat, matches: seq<Path>,
                                                   seen: set<Path>)
    requires path in fs.files && i < |Lines(fs, path)|
    ensures var r := ExpandMatches(fs, path, i, matches, seen); VisitsOnce(fs, seen, r.visited, r.seen)
    decreases |fs.files.Keys - seen|, |Lines(fs, path)| - i, 0, |matches|
  {
    if matches != [] {
      var file := matches[0];
      if file !in fs.files || file in seen {
        ExpandMatchesVisitsOnce(fs, path, i, matches[1..], seen);
      } else {
        UnseenShrinks(fs, seen, seen + {file}, file);
        var body := ExpandFrom(fs, file, 0, seen + {file});
        ExpandFromVisitsOnce(fs, file, 0, seen + {file});
        Unseen(fs, seen, body.seen);
        ExpandMatchesVisitsOnce(fs, path, i, matches[1..], body.seen);
        var rest := ExpandMatches(fs, path, i, matches[1..], body.seen);
        MatchVisitsOnce(fs, seen, file, body, rest);
        assert ExpandMatches(fs, path, i, matches, seen) == Then(Nested(file, body), rest);
      }
    } else {
      VisitsNothing(fs, seen);
    }
  }

  // ----- a file's own lines come out once and in order

  /** What file `q` contributes to the expansion of lines `i..` of `path`. */
  function Contribution(fs: FileSystem, visited: seq<Path>, q: Path): seq<Piece> {
    if q in visited && q in fs.files then OwnLines(fs, q, 0) + [Break(q)] else []
  }

  /** What lines `i..` of `path` contribute for file `q`. */
  ghost predicate OwnFrom(fs: FileSystem, path: Path, i: nat, seen: set<Path>, q: Path)
    requires path in fs.files && i <= |Lines(fs, path)|
  {
    var r := ExpandFrom(fs, path, i, seen);
    From(r.pieces, q) == if q == path then OwnLines(fs, path, i) else Contribution(fs, r.visited, q)
  }

  lemma {:induction false} OwnPlain(fs: FileSystem, path: Path, i: nat, seen: set<Path>, q: Path)
    requires path in fs.files && i < |Lines(fs, path)| && IncludeArgument(Lines(fs, path)[i]).None?
    requires OwnFrom(fs, path, i + 1, seen, q)
    ensures OwnFrom(fs, path, i, seen, q)
  {
    LineOwn(fs, path, i, ExpandFrom(fs, path, i + 1, seen), q);
  }

  lemma {:induction false} OwnUnmatched(fs: FileSystem, path: Path, i: nat, seen: set<Path>, q: Path)
    requires path in fs.files && i < |Lines(fs, path)| && OwnFrom(fs, path, i + 1, seen, q)
    requires var argument := IncludeArgument(Lines(fs, path)[i]);
             argument.Some? && Matches(fs, path, argument.value) == []
    ensures OwnFrom(fs, path, i, seen, q)
  {
    OwnLinesSkip(fs, path, i);
  }

  lemma {:induction false} ExpandFromOwn(fs: FileSystem, path: Path, i: nat, seen: set<Path>, q: Path)
    requires path in fs.files && i <= |Lines(fs, path)| && path in seen
    ensures OwnFrom(fs, path, i, seen, q)
    decreases |fs.files.Keys - seen|, |Lines(fs, path)| - i, 2, 0
  {
    if i == |Lines(fs, path)| {
      OwnEnd(fs, path, seen, q);
    } else {
      var argument := IncludeArgument(Lines(fs, path)[i]);
      var matches := if argument.Some? then Matches(fs, path, argument.value) else [];
      if matches == [] {
        ExpandPastOwn(fs, path, i, seen, q);
      } else {
        ExpandIncludeOwn(fs, path, i, matches, seen, q);
      }
    }
  }

  lemma {:induction false} ExpandPastOwn(fs: FileSystem, path: Path, i: nat, seen: set<Path>, q: Path)
    requires path in fs.files && i < |Lines(fs, path)| && path in seen
    requires var argument := IncludeArgument(Lines(fs, path)[i]);
             argument.None? || Matches(fs, path, argument.value) == []
    ensures OwnFrom(fs, path, i, seen, q)
    decreases |fs.files.Keys - seen|, |Lines(fs, path)| - i, 1, 0
  {
    ExpandFromOwn(fs, path, i + 1, seen, q);
    if IncludeArgument(Lines(fs, path)[i]).None? {
      OwnPlain(fs, path, i, seen, q);
    } else {
      OwnUnmatched(fs, path, i, seen, q);
    }
  }

  lemma {:induction false} ExpandIncludeOwn(fs: FileSystem, path: Path, i: nat, matches: seq<Path>, seen: set<Path>,
                                            q: Path)
    requires path in fs.files && i < |Lines(fs, path)| && path in seen
    requires var argument := IncludeArgument(Lines(fs, path)[i]);
             argument.Some? && matches == Matches(fs, path, argument.value) != []
    ensures OwnFrom(fs, path, i, seen, q)
    decreases |fs.files.Keys - seen|, |Lines(fs, path)| - i, 1, 0
  {
    var after := ExpandMatches(fs, path, i, matches, seen).seen;
    Unseen(fs, seen, after);
    ExpandMatchesOwn(fs, path, i, matches, seen, q);
    ExpandFromOwn(fs, path, i + 1, after, q);
    IncludeOwn(fs, path, i, matches, seen, q);
  }

  lemma {:induction false} OwnEnd(fs: FileSystem, path: Path, seen: set<Path>, q: Path)
    requires path in fs.files
    ensures OwnFrom(fs, path, |Lines(fs, path)|, seen, q)
  {
  }

  /** What the matches of an include line contribute for file `q`. */
  ghost predicate OwnMatches(fs: FileSystem, path: Path, i: nat, matches: seq<Path>, seen: set<Path>, q: Path)
    requires path in fs.files && i < |Lines(fs, path)|
  {
    var r := ExpandMatches(fs, path, i, matches, seen);
    From(r.pieces, q) == if q == path then [] else Contribution(fs, r.visited, q)
  }

  lemma {:induction false} IncludeOwn(fs: FileSystem, path: Path, i: nat, matches: seq<Path>, seen: set<Path>, q: Path)
    requires path in fs.files && i < |Lines(fs, path)|
    requires var argument := IncludeArgument(Lines(fs, path)[i]);
             argument.Some? && matches == Matches(fs, path, argument.value) != []
    requires OwnMatches(fs, path, i, matches, seen, q)
    requires OwnFrom(fs, path, i + 1, ExpandMatches(fs, path, i, matches, seen).seen, q)
    ensures OwnFrom(fs, path, i, seen, q)
  {
    var here := ExpandMatches(fs, path, i, matches, seen);
    var rest := ExpandFrom(fs, path, i + 1, here.seen);
    ExpandMatchesVisitsOnce(fs, path, i, matches, seen);
    ExpandFromVisitsOnce(fs, path, i + 1, here.seen);
    ThenOwn(fs, path, i, seen, here, rest, q);
    assert ExpandFrom(fs, path, i, seen) == Then(here, rest);
  }

  lemma {:induction false} OwnLinesSkip(fs: FileSystem, path: Path, i: nat)
    requires path in fs.files && i < |Lines(fs, path)| && IncludeArgument(Lines(fs, path)[i]).Some?
    ensures OwnLines(fs, path, i) == OwnLines(fs, path, i + 1)
  {
    assert [] + OwnLines(fs, path, i + 1) == OwnLines(fs, path, i + 1);
  }

  /** A plain line followed by the lines after it. */
  lemma {:induction false} LineOwn(fs: FileSystem, path: Path, i: nat, rest: Expansion, q: Path)
    requires path in fs.files && i < |Lines(fs, path)| && IncludeArgument(Lines(fs, path)[i]).None?
    requires From(rest.pieces, q) == if q == path then OwnLines(fs, path, i + 1) else Contribution(fs, rest.visited, q)
    ensures From([Line(path, i)] + rest.pieces, q) == if q == path then OwnLines(fs, path, i)
            else Contribution(fs, rest.visited, q)
  {
    FromConcat([Line(path, i)], rest.pieces, q);
    assert From([Line(path, i)], q) == if q == path then [Line(path, i)] else [];
  }

  /** The matches of an include line followed by the lines after it. */
  lemma {:induction false} ThenOwn(fs: FileSystem, path: Path, i: nat, seen: set<Path>, here: Expansion,
                                   rest: Expansion, q: Path)
    requires path in fs.files && i < |Lines(fs, path)| && IncludeArgument(Lines(fs, path)[i]).Some?
    requires VisitsOnce(fs, seen, here.visited, here.seen) && VisitsOnce(fs, here.seen, rest.visited, rest.seen)
    requires From(here.pieces, q) == if q == path then [] else Contribution(fs, here.visited, q)
    requires From(rest.pieces, q) == if q == path then OwnLines(fs, path, i + 1) else Contribution(fs, rest.visited, q)
    ensures From(Then(here, rest).pieces, q) == if q == path then OwnLines(fs, path, i)
            else Contribution(fs, Then(here, rest).visited, q)
  {
    FromConcat(here.pieces, rest.pieces, q);
    ThenContribution(fs, seen, here, rest, q);
    OwnLinesSkip(fs, path, i);
  }

  lemma {:induction false} ExpandMatchesOwn(fs: FileSystem, path: Path, i: nat, matches: seq<Path>, seen: set<Path>,
                                            q: Path)
    requires path in fs.files && i < |Lines(fs, path)| && path in seen
    ensures OwnMatches(fs, path, i, matches, seen, q)
    decreases |fs.files.Keys - seen|, |Lines(fs, path)| - i, 0, |matches|
  {
    if matches != [] {
      var file := matches[0];
      if file !in fs.files || file in seen {
        ExpandMatchesOwn(fs, path, i, matches[1..], seen, q);
      } else {
        UnseenShrinks(fs, seen, seen + {file}, file);
        var body := ExpandFrom(fs, file, 0, seen + {file});
        ExpandFromOwn(fs, file, 0, seen + {file}, q);
        ExpandFromVisitsOnce(fs, file, 0, seen + {file});
        Unseen(fs, seen, body.seen);
        ExpandMatchesOwn(fs, path, i, matches[1..], body.seen, q);
        ExpandMatchesVisitsOnce(fs, path, i, matches[1..], body.seen);
        var rest := ExpandMatches(fs, path, i, matches[1..], body.seen);
        MatchOwn(fs, seen, path, file, body, rest, q);
      }
    }
  }

  /** An included file's expansion followed by the rest of the matches. */
  lemma {:induction false} MatchOwn(fs: FileSystem, seen: set<Path>, path: Path, file: Path, body: Expansion,
                                    rest: Expansion, q: Path)
    requires file in fs.files && file !in seen && path in seen
    requires VisitsOnce(fs, seen + {file}, body.visited, body.seen)
             && VisitsOnce(fs, body.seen, rest.visited, rest.seen)
    requires From(body.pieces, q) == if q == file then OwnLines(fs, file, 0) else Contribution(fs, body.visited, q)
    requires From(rest.pieces, q) == if q == path then [] else Contribution(fs, rest.visited, q)
    ensures From(body.pieces + [Break(file)] + rest.pieces, q)
         == if q == path then [] else Contribution(fs, [file] + body.visited + rest.visited, q)
  {
    FromConcat(body.pieces + [Break(file)], rest.pieces, q);
    FromConcat(body.pieces, [Break(file)], q);
    assert From([Break(file)], q) == if q == file then [Break(file)] else [];
    NestedContribution(fs, seen, file, body, rest, q);
  }

  lemma {:induction false} ThenContribution(fs: FileSystem, seen: set<Path>, here: Expansion, rest: Expansion, q: Path)
    requires VisitsOnce(fs, seen, here.visited, here.seen) && VisitsOnce(fs, here.seen, rest.visited, rest.seen)
    ensures Contribution(fs, here.visited + rest.visited, q) == Contribution(fs, here.visited, q)
            + Contribution(fs, rest.visited, q)
  {
  }

  lemma {:induction false} NestedContribution(fs: FileSystem, seen: set<Path>, file: Path, body: Expansion,
                                              rest: Expansion, q: Path)
    requires file in fs.files && file !in seen
    requires VisitsOnce(fs, seen + {file}, body.visited, body.seen)
             && VisitsOnce(fs, body.seen, rest.visited, rest.seen)
    ensures Contribution(fs, [file] + body.visited + rest.visited, q)
         == (if q == file then OwnLines(fs, file, 0) + [Break(file)] else Contribution(fs, body.visited, q))
           + Contribution(fs, rest.visited, q)
    ensures q in seen ==> q !in [file] + body.visited + rest.visited
  {
  }

  // ----- reachability

  /** File `p` has an include line that matches the readable file `q`. */
  ghost predicate Includes(fs: FileSystem, p: Path, q: Path) {
    && p in fs.files && q in fs.files
    && exists i | 0 <= i < |Lines(fs, p)| :: IncludesAt(fs, p, i, q)
  }

  predicate IncludesAt(fs: FileSystem, p: Path, i: nat, q: Path)
    requires p in fs.files && i < |Lines(fs, p)|
  {
    var argument := IncludeArgument(Lines(fs, p)[i]);
    argument.Some? && q in fs.glob(p, argument.value)
  }

  /** What an include expands is what its argument matches, in ascending order. */
  lemma {:induction false} MatchesAscend(fs: FileSystem, path: Path, argument: string)
    ensures multiset(Matches(fs, path, argument)) == multiset(fs.glob(path, argument))
    ensures forall i, j :: 0 <= i < j < |Matches(fs, path, argument)| ==>
              !Less(Matches(fs, path, argument)[j], Matches(fs, path, argument)[i])
  {
    TextOrder();
    StableSortFacts(NotAfterText, fs.glob(path, argument));
    assert forall a, b :: NotAfterText(a, b) ==> !Less(b, a);
  }

  lemma {:induction false} MatchesMembers(fs: FileSystem, path: Path, argument: string, q: Path)
    ensures q in Matches(fs, path, argument) <==> q in fs.glob(path, argument)
  {
    MatchesAscend(fs, path, argument);
    assert q in Matches(fs, path, argument) <==> q in multiset(Matches(fs, path, argument));
    assert q in fs.glob(path, argument) <==> q in multiset(fs.glob(path, argument));
  }

  lemma {:induction false} TextOrder()
    ensures TotalPreorder(NotAfterText)
  {
    forall x, y ensures NotAfterText(x, y) || NotAfterText(y, x) {
      if Less(y, x) {
        LessAsymmetric(y, x);
      }
    }
    forall x, y, z | NotAfterText(x, y) && NotAfterText(y, z) ensures NotAfterText(x, z) {
      NotLessTransitive(x, y, z);
    }
  }

  ghost predicate ReachableIn(fs: FileSystem, p: Path, q: Path, steps: nat)
    decreases steps
  {
    if steps == 0 then p == q
    else exists m :: Includes(fs, p, m) && ReachableIn(fs, m, q, steps - 1)
  }

  ghost predicate Reachable(fs: FileSystem, p: Path, q: Path) {
    exists steps: nat :: ReachableIn(fs, p, q, steps)
  }

  lemma {:induction false} ReachableStep(fs: FileSystem, p: Path, m: Path, q: Path)
    requires Includes(fs, p, m) && Reachable(fs, m, q)
    ensures Reachable(fs, p, q)
  {
    var steps: nat :| ReachableIn(fs, m, q, steps);
    assert ReachableIn(fs, p, q, steps + 1);
  }

  lemma {:induction false} ExpandFromSound(fs: FileSystem, path: Path, i: nat, seen: set<Path>, q: Path)
    requires path in fs.files && i <= |Lines(fs, path)| && q in ExpandFrom(fs, path, i, seen).visited
    ensures Reachable(fs, path, q)
    decreases |fs.files.Keys - seen|, |Lines(fs, path)| - i, 1, 0
  {
    match IncludeArgument(Lines(fs, path)[i])
    case None =>
      ExpandFromSound(fs, path, i + 1, seen, q);
    case Some(argument) =>
      var matches := Matches(fs, path, argument);
      if matches == [] {
        ExpandFromSound(fs, path, i + 1, seen, q);
      } else {
        var here := ExpandMatches(fs, path, i, matches, seen);
        Unseen(fs, seen, here.seen);
        if q in here.visited {
          forall m | m in matches ensures IncludesAt(fs, path, i, m) {
            MatchesMembers(fs, path, argument, m);
          }
          ExpandMatchesSound(fs, path, i, matches, seen, q);
        } else {
          ExpandFromSound(fs, path, i + 1, here.seen, q);
        }
      }
  }

  lemma {:induction false} ExpandMatchesSound(fs: FileSystem, path: Path, i: nat, matches: seq<Path>, seen: set<Path>,
                                              q: Path)
    requires path in fs.files && i < |Lines(fs, path)|
    requires forall m <- matches :: IncludesAt(fs, path, i, m)
    requires q in ExpandMatches(fs, path, i, matches, seen).visited
    ensures Reachable(fs, path, q)
    decreases |fs.files.Keys - seen|, |Lines(fs, path)| - i, 0, |matches|
  {
    var file := matches[0];
    if file !in fs.files || file in seen {
      ExpandMatchesSound(fs, path, i, matches[1..], seen, q);
    } else {
      UnseenShrinks(fs, seen, seen + {file}, file);
      var body := ExpandFrom(fs, file, 0, seen + {file});
      Unseen(fs, seen, body.seen);
      if q == file || q in body.visited {
        if q == file {
          assert ReachableIn(fs, file, q, 0);
        } else {
          ExpandFromSound(fs, file, 0, seen + {file}, q);
        }
        assert file in matches;
        assert IncludesAt(fs, path, i, file);
        ReachableStep(fs, path, file, q);
      } else {
        ExpandMatchesSound(fs, path, i, matches[1..], body.seen, q);
      }
    }
  }

  /** Every readable file that a file of `done` includes is in `seen`. */
  ghost predicate Closed(fs: FileSystem, done: set<Path>, seen: set<Path>) {
    forall p, q :: p in done && Includes(fs, p, q) ==> q in seen
  }

  /** Lines `i..` of `path` include only readable files of `seen`. */
  ghost predicate ClosedFrom(fs: FileSystem, path: Path, i: nat, seen: set<Path>)
    requires path in fs.files
  {
    forall k, q :: i <= k < |Lines(fs, path)| && q in fs.files && IncludesAt(fs, path, k, q) ==> q in seen
  }

  lemma {:induction false} ExpandFromClosed(fs: FileSystem, path: Path, i: nat, seen: set<Path>)
    requires path in fs.files && i <= |Lines(fs, path)|
    ensures var r := ExpandFrom(fs, path, i, seen);
            ClosedFrom(fs, path, i, r.seen) && Closed(fs, ToSet(r.visited), r.seen)
    decreases |fs.files.Keys - seen|, |Lines(fs, path)| - i, 1, 0
  {
    if i < |Lines(fs, path)| {
      var argument := IncludeArgument(Lines(fs, path)[i]);
      var matches := if argument.Some? then Matches(fs, path, argument.value) else [];
      if argument.Some? {
        forall q ensures q in matches <==> IncludesAt(fs, path, i, q) {
          MatchesMembers(fs, path, argument.value, q);
        }
      }
      if matches == [] {
        ExpandFromClosed(fs, path, i + 1, seen);
        ClosedOne(fs, path, i, ExpandFrom(fs, path, i, seen).seen);
      } else {
        var here := ExpandMatches(fs, path, i, matches, seen);
        Unseen(fs, seen, here.seen);
        ExpandMatchesClosed(fs, path, i, matches, seen);
        ExpandFromClosed(fs, path, i + 1, here.seen);
        ClosedThen(fs, path, i, matches, seen);
      }
    }
  }

  lemma {:induction false} ClosedOne(fs: FileSystem, path: Path, i: nat, seen: set<Path>)
    requires path in fs.files && i < |Lines(fs, path)| && ClosedFrom(fs, path, i + 1, seen)
    requires forall q :: q in fs.files && IncludesAt(fs, path, i, q) ==> q in seen
    ensures ClosedFrom(fs, path, i, seen)
  {
  }

  lemma {:induction false} ClosedThen(fs: FileSystem, path: Path, i: nat, matches: seq<Path>, seen: set<Path>)
    requires path in fs.files && i < |Lines(fs, path)|
    requires var argument := IncludeArgument(Lines(fs, path)[i]);
             argument.Some? && matches == Matches(fs, path, argument.value) != []
    requires forall q :: q in matches <==> IncludesAt(fs, path, i, q)
    requires var here := ExpandMatches(fs, path, i, matches, seen);
             (forall m <- matches :: m in fs.files ==> m in here.seen) && Closed(fs, ToSet(here.visited), here.seen)
    requires var rest := ExpandFrom(fs, path, i + 1, ExpandMatches(fs, path, i, matches, seen).seen);
             ClosedFrom(fs, path, i + 1, rest.seen) && Closed(fs, ToSet(rest.visited), rest.seen)
    ensures var r := ExpandFrom(fs, path, i, seen);
            ClosedFrom(fs, path, i, r.seen) && Closed(fs, ToSet(r.visited), r.seen)
  {
    var here := ExpandMatches(fs, path, i, matches, seen);
    var rest := ExpandFrom(fs, path, i + 1, here.seen);
    assert ExpandFrom(fs, path, i, seen) == Then(here, rest);
    ClosedOne(fs, path, i, rest.seen);
    assert ToSet(here.visited + rest.visited) == ToSet(here.visited) + ToSet(rest.visited);
  }

  lemma {:induction false} ExpandMatchesClosed(fs: FileSystem, path: Path, i: nat, matches: seq<Path>, seen: set<Path>)
    requires path in fs.files && i < |Lines(fs, path)|
    ensures var r := ExpandMatches(fs, path, i, matches, seen);
            (forall m <- matches :: m in fs.files ==> m in r.seen) && Closed(fs, ToSet(r.visited), r.seen)
    decreases |fs.files.Keys - seen|, |Lines(fs, path)| - i, 0, |matches|
  {
    if matches != [] {
      var file := matches[0];
      assert forall m <- matches :: m == file || m in matches[1..];
      if file !in fs.files || file in seen {
        ExpandMatchesClosed(fs, path, i, matches[1..], seen);
      } else {
        UnseenShrinks(fs, seen, seen + {file}, file);
        var body := ExpandFrom(fs, file, 0, seen + {file});
        ExpandFromClosed(fs, file, 0, seen + {file});
        Unseen(fs, seen, body.seen);
        ExpandMatchesClosed(fs, path, i, matches[1..], body.seen);
      }
    }
  }

  // ----- whole loads

  /** A file's own pieces in everything a load outputs, root by root. */
  function FromSources(sources: seq<Source>, q: Path): seq<Piece> {
    if sources == [] then [] else From(sources[0].pieces, q) + FromSources(sources[1..], q)
  }

  ghost predicate IsRootOf(sources: seq<Source>, q: Path) {
    exists k :: 0 <= k < |sources| && sources[k].root == q
  }

  /** Across one whole load no file is expanded twice, and the seen set is the roots tried plus the files expanded. */
  lemma {:induction false} LoadVisitsOnce(fs: FileSystem, roots: seq<Path>, seen: set<Path>)
    ensures var r := LoadRoots(fs, roots, seen);
            && NoRepeats(r.visited) && (forall v <- r.visited :: v !in seen && v in fs.files)
            && r.seen == seen + ToSet(roots) + ToSet(r.visited)
  {
    if roots != [] {
      var root := roots[0];
      assert ToSet(roots) == {root} + ToSet(roots[1..]);
      if root in seen {
        LoadVisitsOnce(fs, roots[1..], seen);
      } else if root !in fs.files {
        LoadVisitsOnce(fs, roots[1..], seen + {root});
      } else {
        var body := ExpandFrom(fs, root, 0, seen + {root});
        var rest := LoadRoots(fs, roots[1..], body.seen);
        ExpandFromVisitsOnce(fs, root, 0, seen + {root});
        LoadVisitsOnce(fs, roots[1..], body.seen);
        var a := [root] + body.visited;
        VisitsOnceThen(fs, seen, [root], seen + {root}, body.visited, body.seen);
        assert ToSet(a + rest.visited) == ToSet(a) + ToSet(rest.visited);
        forall i, j | 0 <= i < j < |a + rest.visited| ensures (a + rest.visited)[i] != (a + rest.visited)[j] {
          if i < |a| <= j {
            assert a[i] in ToSet(a) && rest.visited[j - |a|] in rest.visited;
          }
        }
      }
    }
  }

  /** Seen sets of loads that started from nothing: every readable file in them was expanded. */
  lemma {:induction false} LoadClosed(fs: FileSystem, roots: seq<Path>, seen: set<Path>)
    requires Closed(fs, seen, seen)
    ensures var r := LoadRoots(fs, roots, seen); Closed(fs, r.seen, r.seen)
  {
    if roots != [] {
      var root := roots[0];
      if root in seen {
        LoadClosed(fs, roots[1..], seen);
      } else if root !in fs.files {
        LoadClosed(fs, roots[1..], seen + {root});
      } else {
        var body := ExpandFrom(fs, root, 0, seen + {root});
        ExpandFromVisitsOnce(fs, root, 0, seen + {root});
        ExpandFromClosed(fs, root, 0, seen + {root});
        forall p, q | p in body.seen && Includes(fs, p, q) ensures q in body.seen {
          if p == root {
            var k :| 0 <= k < |Lines(fs, p)| && IncludesAt(fs, p, k, q);
          } else {
            assert p in seen || p in ToSet(body.visited);
          }
        }
        LoadClosed(fs, roots[1..], body.seen);
      }
    }
  }

  lemma {:induction false} ClosedReaches(fs: FileSystem, seen: set<Path>, p: Path, q: Path, steps: nat)
    requires Closed(fs, seen, seen) && p in seen && ReachableIn(fs, p, q, steps)
    ensures q in seen
    decreases steps
  {
    if steps > 0 {
      var m := StepStays(fs, seen, p, q, steps);
      ClosedReaches(fs, seen, m, q, steps - 1);
    }
  }

  lemma {:induction false} StepStays(fs: FileSystem, seen: set<Path>, p: Path, q: Path, steps: nat) returns (m: Path)
    requires Closed(fs, seen, seen) && p in seen && steps > 0 && ReachableIn(fs, p, q, steps)
    ensures m in seen && ReachableIn(fs, m, q, steps - 1)
  {
    m :| Includes(fs, p, m) && ReachableIn(fs, m, q, steps - 1);
  }

  lemma {:induction false} LoadSound(fs: FileSystem, roots: seq<Path>, seen: set<Path>, q: Path)
    requires q in LoadRoots(fs, roots, seen).visited
    ensures exists root <- roots :: root in fs.files && Reachable(fs, root, q)
  {
    var root := roots[0];
    assert root in roots && forall r <- roots[1..] :: r in roots;
    if root in seen {
      LoadSound(fs, roots[1..], seen, q);
    } else if root !in fs.files {
      LoadSound(fs, roots[1..], seen + {root}, q);
    } else {
      var body := ExpandFrom(fs, root, 0, seen + {root});
      if q == root {
        assert ReachableIn(fs, root, q, 0);
      } else if q in body.visited {
        ExpandFromSound(fs, root, 0, seen + {root}, q);
      } else {
        LoadSound(fs, roots[1..], body.seen, q);
      }
    }
  }

  /** The seen set of a load is exactly the roots tried together with the readable files reachable
      from a readable root, for every include graph. */
  lemma {:induction false} LoadSeesReachable(fs: FileSystem, roots: seq<Path>, q: Path)
    ensures q in LoadRoots(fs, roots, {}).seen
       <==> q in roots || exists root <- roots :: root in fs.files && Reachable(fs, root, q)
  {
    var r := LoadRoots(fs, roots, {});
    LoadVisitsOnce(fs, roots, {});
    LoadClosed(fs, roots, {});
    if q in r.visited {
      LoadSound(fs, roots, {}, q);
    }
    if root :| root in roots && root in fs.files && Reachable(fs, root, q) {
      var steps: nat :| ReachableIn(fs, root, q, steps);
      assert root in ToSet(roots);
      ClosedReaches(fs, r.seen, root, q, steps);
    }
  }

  /** The files expanded are the readable ones among those seen. */
  lemma {:induction false} LoadVisitsReadable(fs: FileSystem, roots: seq<Path>, seen: set<Path>, q: Path)
    requires q !in seen
    ensures var r := LoadRoots(fs, roots, seen); q in r.visited <==> q in r.seen && q in fs.files
  {
    if roots != [] {
      var root := roots[0];
      LoadVisitsOnce(fs, roots, seen);
      if root in seen {
        LoadVisitsReadable(fs, roots[1..], seen, q);
      } else if root !in fs.files {
        if q == root {
          assert q in seen + ToSet(roots) && q !in LoadRoots(fs, roots, seen).visited;
        } else {
          LoadVisitsReadable(fs, roots[1..], seen + {root}, q);
        }
      } else {
        var body := ExpandFrom(fs, root, 0, seen + {root});
        ExpandFromVisitsOnce(fs, root, 0, seen + {root});
        if q !in body.seen {
          LoadVisitsReadable(fs, roots[1..], body.seen, q);
        }
      }
    }
  }

  /** What file `q` contributes to a whole load: nothing if it is not expanded; its own lines, each once
      and in file order, if it is; and the newline of an include when it was not loaded as a root. */
  lemma {:induction false} LoadOwnLines(fs: FileSystem, roots: seq<Path>, seen: set<Path>, q: Path)
    ensures OwnLoaded(fs, LoadRoots(fs, roots, seen), q)
  {
    if roots != [] {
      var root := roots[0];
      if root in seen {
        LoadOwnLines(fs, roots[1..], seen, q);
      } else if root !in fs.files {
        LoadOwnLines(fs, roots[1..], seen + {root}, q);
      } else {
        var body := ExpandFrom(fs, root, 0, seen + {root});
        LoadOwnLines(fs, roots[1..], body.seen, q);
        RootOwn(fs, roots, seen, q);
      }
    }
  }

  ghost predicate OwnLoaded(fs: FileSystem, r: Loaded, q: Path) {
    && (q !in r.visited ==> FromSources(r.sources, q) == [])
    && (q in r.visited ==>
         && q in fs.files
         && FromSources(r.sources, q) == OwnLines(fs, q, 0) + if IsRootOf(r.sources, q) then [] else [Break(q)])
    && (IsRootOf(r.sources, q) ==> q in r.visited)
  }

  /** A readable root followed by the rest of the load. */
  lemma {:induction false} RootOwn(fs: FileSystem, roots: seq<Path>, seen: set<Path>, q: Path)
    requires roots != [] && roots[0] in fs.files && roots[0] !in seen
    requires OwnLoaded(fs, LoadRoots(fs, roots[1..], ExpandFrom(fs, roots[0], 0, seen + {roots[0]}).seen), q)
    ensures OwnLoaded(fs, LoadRoots(fs, roots, seen), q)
  {
    var root := roots[0];
    var body := ExpandFrom(fs, root, 0, seen + {root});
    ExpandFromOwn(fs, root, 0, seen + {root}, q);
    ExpandFromVisitsOnce(fs, root, 0, seen + {root});
    LoadVisitsOnce(fs, roots[1..], body.seen);
    RootThenRest(fs, seen, root, body, LoadRoots(fs, roots[1..], body.seen), q);
  }

  lemma {:induction false} RootThenRest(fs: FileSystem, seen: set<Path>, root: Path, body: Expansion, rest: Loaded,
                                        q: Path)
    requires root in fs.files && VisitsOnce(fs, seen + {root}, body.visited, body.seen)
    requires forall v <- rest.visited :: v !in body.seen
    requires From(body.pieces, q) == if q == root then OwnLines(fs, root, 0) else Contribution(fs, body.visited, q)
    requires OwnLoaded(fs, rest, q)
    ensures var source := Source(root, body.pieces, body.warnings);
            OwnLoaded(fs, Loaded([source] + rest.sources, rest.warnings, [root] + body.visited + rest.visited,
                                 rest.seen), q)
  {
    RootOfCons(Source(root, body.pieces, body.warnings), rest.sources, q);
    assert q in [root] + body.visited + rest.visited <==> q == root || q in body.visited || q in rest.visited;
    assert q in ToSet(body.visited) <==> q in body.visited;
    if q in rest.visited {
      assert FromSources(rest.sources, q) == [] + FromSources(rest.sources, q);
    } else {
      assert From(body.pieces, q) + [] == From(body.pieces, q);
    }
  }

  lemma {:induction false} RootOfCons(first: Source, rest: seq<Source>, q: Path)
    ensures IsRootOf([first] + rest, q) <==> q == first.root || IsRootOf(rest, q)
    ensures FromSources([first] + rest, q) == From(first.pieces, q) + FromSources(rest, q)
  {
    var all := [first] + rest;
    assert all[1..] == rest && all[0].root == first.root;
    if IsRootOf(rest, q) {
      var k :| 0 <= k < |rest| && rest[k].root == q;
      assert all[k + 1].root == q;
    }
    if IsRootOf(all, q) {
      var k :| 0 <= k < |all| && all[k].root == q;
      assert k > 0 ==> rest[k - 1].root == q;
    }
  }

  // ----- whole loads, by path

  lemma {:induction false} FilesAtMembers(fs: FileSystem, path: Path, q: Path)
    ensures q in FilesAt(fs, path) <==> StandsFor(fs, path, q)
  {
    if path in fs.directories {
      var files := DictionaryFiles(fs.directories[path]);
      DictionaryFilesMembers(fs.directories[path], q);
      StableSortPermutes(NotAfterText, files);
      assert q in FilesAt(fs, path) <==> q in multiset(FilesAt(fs, path));
      assert q in files <==> q in multiset(files);
    }
  }

  lemma {:induction false} DictionaryFilesMembers(entries: seq<DirEntry>, q: Path)
    ensures q in DictionaryFiles(entries) <==> exists e <- entries :: IsDictionaryFile(e) && e.path == q
  {
    var found, files := Filter(IsDictionaryFile, entries), DictionaryFiles(entries);
    FilterMembers(IsDictionaryFile, entries);
    if e :| e in entries && IsDictionaryFile(e) && e.path == q {
      var i :| 0 <= i < |found| && found[i] == e;
      assert files[i] == q;
    }
    if q in files {
      var i :| 0 <= i < |files| && files[i] == q;
      assert found[i] in found && found[i].path == q;
    }
  }

  lemma {:induction false} TriedMembers(fs: FileSystem, paths: seq<Path>, q: Path)
    ensures q in Tried(fs, paths) <==> exists p <- paths :: StandsFor(fs, p, q)
  {
    if paths != [] {
      var init, last := paths[..|paths| - 1], paths[|paths| - 1];
      assert paths == init + [last];
      TriedMembers(fs, init, q);
      FilesAtMembers(fs, last, q);
    }
  }

  /** After a load, a file is seen exactly when some path stands for it, or it is reachable from a readable
      file that some path stands for. So a path that does not exist, which stands for nothing, stays
      unmarked unless something includes it. */
  lemma {:induction false} PathsSeeReachable(fs: FileSystem, paths: seq<Path>, q: Path)
    ensures q in LoadRoots(fs, Tried(fs, paths), {}).seen
       <==> || (exists p <- paths :: StandsFor(fs, p, q))
            || exists p <- paths, root <- fs.files :: StandsFor(fs, p, root) && Reachable(fs, root, q)
  {
    var tried := Tried(fs, paths);
    LoadSeesReachable(fs, tried, q);
    TriedMembers(fs, paths, q);
    if root :| root in tried && root in fs.files && Reachable(fs, root, q) {
      TriedMembers(fs, paths, root);
    }
    if p, root :| p in paths && root in fs.files && StandsFor(fs, p, root) && Reachable(fs, root, q) {
      TriedMembers(fs, paths, root);
    }
  }
}

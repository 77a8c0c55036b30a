/** In which order include expansion writes its output, for every file graph. A file is expanded where it
    is first reached along files that were not seen before: by the earliest include line, and there by
    the match that is first in text order. Its output is one stretch, between the includer's own lines
    before and after that include line. */
module IncludeOrder {
  import opened Text
  import opened Sequences
  import opened Wrappers
  import opened IncludeExpansion
  import opened IncludeLaws

  // ----- reaching a file along unseen files

  /** `p` leads to `q` in so many includes, along readable files outside `seen`. */
  ghost predicate LeadsIn(fs: FileSystem, seen: set<Path>, p: Path, q: Path, steps: nat)
    decreases steps
  {
    && p in fs.files && p !in seen
    && if steps == 0 then p == q else exists m :: Includes(fs, p, m) && LeadsIn(fs, seen, m, q, steps - 1)
  }

  ghost predicate Leads(fs: FileSystem, seen: set<Path>, p: Path, q: Path) {
    exists steps: nat :: LeadsIn(fs, seen, p, q, steps)
  }

  lemma {:induction false} LeadsSelf(fs: FileSystem, seen: set<Path>, p: Path)
    requires p in fs.files && p !in seen
    ensures Leads(fs, seen, p, p)
  {
    assert LeadsIn(fs, seen, p, p, 0);
  }

  lemma {:induction false} LeadsStep(fs: FileSystem, seen: set<Path>, p: Path, m: Path, q: Path)
    requires p !in seen && Includes(fs, p, m) && Leads(fs, seen, m, q)
    ensures Leads(fs, seen, p, q)
  {
    var steps: nat :| LeadsIn(fs, seen, m, q, steps);
    assert LeadsIn(fs, seen, p, q, steps + 1);
  }

  lemma {:induction false} LeadsInFrom(fs: FileSystem, seen: set<Path>, p: Path, q: Path, steps: nat)
    requires LeadsIn(fs, seen, p, q, steps)
    ensures p in fs.files && p !in seen && q in fs.files && q !in seen
    decreases steps
  {
    if steps > 0 {
      var m :| Includes(fs, p, m) && LeadsIn(fs, seen, m, q, steps - 1);
      LeadsInFrom(fs, seen, m, q, steps - 1);
    }
  }

  lemma {:induction false} LeadsFrom(fs: FileSystem, seen: set<Path>, p: Path, q: Path)
    requires Leads(fs, seen, p, q)
    ensures p in fs.files && p !in seen && q in fs.files && q !in seen
  {
    var steps: nat :| LeadsIn(fs, seen, p, q, steps);
    LeadsInFrom(fs, seen, p, q, steps);
  }

  lemma {:induction false} LeadsInLess(fs: FileSystem, a: set<Path>, b: set<Path>, p: Path, q: Path, steps: nat)
    requires a <= b && LeadsIn(fs, b, p, q, steps)
    ensures LeadsIn(fs, a, p, q, steps)
    decreases steps
  {
    if steps > 0 {
      var m :| Includes(fs, p, m) && LeadsIn(fs, b, m, q, steps - 1);
      LeadsInLess(fs, a, b, m, q, steps - 1);
    }
  }

  /** `after` is `seen` and files whose includes are all in `after`. */
  ghost predicate Swept(fs: FileSystem, seen: set<Path>, after: set<Path>) {
    seen <= after && Closed(fs, after - seen, after)
  }

  lemma {:induction false} SweptLeadsIn(fs: FileSystem, seen: set<Path>, after: set<Path>, p: Path, q: Path, steps: nat)
    requires Swept(fs, seen, after) && LeadsIn(fs, seen, p, q, steps)
    ensures if p in after then q in after else q in after || LeadsIn(fs, after, p, q, steps)
    decreases steps
  {
    if steps > 0 {
      var m :| Includes(fs, p, m) && LeadsIn(fs, seen, m, q, steps - 1);
      SweptLeadsIn(fs, seen, after, m, q, steps - 1);
      if p in after {
        assert p in after - seen && m in after;
      }
    }
  }

  /** Outside what was swept, the same files lead to the same files. */
  lemma {:induction false} SweptLeads(fs: FileSystem, seen: set<Path>, after: set<Path>, p: Path, q: Path)
    requires Swept(fs, seen, after) && q !in after
    ensures Leads(fs, seen, p, q) <==> Leads(fs, after, p, q)
  {
    if steps: nat :| LeadsIn(fs, seen, p, q, steps) {
      SweptLeadsIn(fs, seen, after, p, q, steps);
    }
    if steps: nat :| LeadsIn(fs, after, p, q, steps) {
      LeadsInLess(fs, seen, after, p, q, steps);
    }
  }

  lemma {:induction false} SweptInside(fs: FileSystem, seen: set<Path>, after: set<Path>, p: Path, q: Path)
    requires Swept(fs, seen, after) && p in after && Leads(fs, seen, p, q)
    ensures q in after
  {
    var steps: nat :| LeadsIn(fs, seen, p, q, steps);
    SweptLeadsIn(fs, seen, after, p, q, steps);
  }

  // ----- what one line writes

  /** What line `i` of `path` writes. */
  function Here(fs: FileSystem, path: Path, i: nat, seen: set<Path>): (r: Expansion)
    requires path in fs.files && i < |Lines(fs, path)|
    ensures seen <= r.seen
  {
    var argument := IncludeArgument(Lines(fs, path)[i]);
    if argument.None? then Expansion([Line(path, i)], [], [], seen)
    else if Matches(fs, path, argument.value) == [] then
      Expansion([], [UnresolvedInclude(i + 1, argument.value, path)], [], seen)
    else ExpandMatches(fs, path, i, Matches(fs, path, argument.value), seen)
  }

  lemma {:induction false} HereThen(fs: FileSystem, path: Path, i: nat, seen: set<Path>)
    requires path in fs.files && i < |Lines(fs, path)|
    ensures var here := Here(fs, path, i, seen);
            var r, rest := ExpandFrom(fs, path, i, seen), ExpandFrom(fs, path, i + 1, here.seen);
            && r.pieces == here.pieces + rest.pieces && r.visited == here.visited + rest.visited
            && r.warnings == here.warnings + rest.warnings && r.seen == rest.seen
  {
    var argument := IncludeArgument(Lines(fs, path)[i]);
    var rest := ExpandFrom(fs, path, i + 1, seen);
    assert [] + rest.visited == rest.visited && [] + rest.pieces == rest.pieces && [] + rest.warnings == rest.warnings;
  }

  lemma {:induction false} HereVisitsOnce(fs: FileSystem, path: Path, i: nat, seen: set<Path>)
    requires path in fs.files && i < |Lines(fs, path)|
    ensures var here := Here(fs, path, i, seen); VisitsOnce(fs, seen, here.visited, here.seen)
  {
    var argument := IncludeArgument(Lines(fs, path)[i]);
    VisitsNothing(fs, seen);
    if argument.Some? {
      ExpandMatchesVisitsOnce(fs, path, i, Matches(fs, path, argument.value), seen);
    }
  }

  // ----- which files are expanded: those reached along unseen files

  /** Line `k` of `path` includes `f`, which leads to `q`. */
  ghost predicate Reaches(fs: FileSystem, path: Path, k: nat, f: Path, seen: set<Path>, q: Path) {
    && path in fs.files && k < |Lines(fs, path)|
    && IncludesAt(fs, path, k, f) && Leads(fs, seen, f, q)
  }

  lemma {:induction false} ExpandedSwept(fs: FileSystem, path: Path, i: nat, seen: set<Path>)
    requires path in fs.files && i <= |Lines(fs, path)|
    ensures var r := ExpandFrom(fs, path, i, seen); Swept(fs, seen, r.seen) && r.seen - seen == ToSet(r.visited)
  {
    ExpandFromVisitsOnce(fs, path, i, seen);
    ExpandFromClosed(fs, path, i, seen);
    var r := ExpandFrom(fs, path, i, seen);
    assert r.seen - seen == ToSet(r.visited);
  }

  lemma {:induction false} MatchesSwept(fs: FileSystem, path: Path, i: nat, matches: seq<Path>, seen: set<Path>)
    requires path in fs.files && i < |Lines(fs, path)|
    ensures var r := ExpandMatches(fs, path, i, matches, seen);
            Swept(fs, seen, r.seen) && r.seen - seen == ToSet(r.visited)
  {
    ExpandMatchesVisitsOnce(fs, path, i, matches, seen);
    ExpandMatchesClosed(fs, path, i, matches, seen);
    var r := ExpandMatches(fs, path, i, matches, seen);
    assert r.seen - seen == ToSet(r.visited);
  }

  lemma {:induction false} HereSwept(fs: FileSystem, path: Path, i: nat, seen: set<Path>)
    requires path in fs.files && i < |Lines(fs, path)|
    ensures var here := Here(fs, path, i, seen);
            Swept(fs, seen, here.seen) && here.seen - seen == ToSet(here.visited)
  {
    var argument := IncludeArgument(Lines(fs, path)[i]);
    if argument.Some? {
      MatchesSwept(fs, path, i, Matches(fs, path, argument.value), seen);
    }
  }

  /** A new file with everything it expands. */
  lemma {:induction false} NestedSwept(fs: FileSystem, file: Path, seen: set<Path>)
    requires file in fs.files && file !in seen
    ensures var body := ExpandFrom(fs, file, 0, seen + {file});
            Swept(fs, seen, body.seen) && body.seen - seen == {file} + ToSet(body.visited)
  {
    var body := ExpandFrom(fs, file, 0, seen + {file});
    ExpandFromClosed(fs, file, 0, seen + {file});
    ExpandFromVisitsOnce(fs, file, 0, seen + {file});
    assert body.seen - seen == {file} + ToSet(body.visited);
    forall p, q | p in body.seen - seen && Includes(fs, p, q) ensures q in body.seen {
      if p == file {
        var k :| 0 <= k < |Lines(fs, p)| && IncludesAt(fs, p, k, q);
      } else {
        assert p in ToSet(body.visited);
      }
    }
  }

  /** The first match, if it is new. */
  lemma {:induction false} FirstMatch(fs: FileSystem, path: Path, i: nat, matches: seq<Path>, seen: set<Path>)
    requires path in fs.files && i < |Lines(fs, path)| && matches != []
    requires matches[0] in fs.files && matches[0] !in seen
    ensures var file := matches[0];
            var body := ExpandFrom(fs, file, 0, seen + {file});
            && Swept(fs, seen, body.seen) && body.seen - seen == {file} + ToSet(body.visited)
            && ExpandMatches(fs, path, i, matches, seen)
               == Then(Nested(file, body), ExpandMatches(fs, path, i, matches[1..], body.seen))
  {
    NestedSwept(fs, matches[0], seen);
  }

  lemma {:induction false} ExpandedLeads(fs: FileSystem, path: Path, i: nat, seen: set<Path>, q: Path)
    returns (k: nat, f: Path)
    requires path in fs.files && i <= |Lines(fs, path)| && q in ExpandFrom(fs, path, i, seen).visited
    ensures i <= k && Reaches(fs, path, k, f, seen, q)
    decreases |fs.files.Keys - seen|, |Lines(fs, path)| - i, 1, 0
  {
    HereThen(fs, path, i, seen);
    var here := Here(fs, path, i, seen);
    if q in here.visited {
      var argument := IncludeArgument(Lines(fs, path)[i]);
      k := i;
      f := MatchedLeads(fs, path, i, Matches(fs, path, argument.value), seen, q);
      MatchesMembers(fs, path, argument.value, f);
    } else {
      Unseen(fs, seen, here.seen);
      k, f := ExpandedLeads(fs, path, i + 1, here.seen, q);
      var steps: nat :| LeadsIn(fs, here.seen, f, q, steps);
      LeadsInLess(fs, seen, here.seen, f, q, steps);
    }
  }

  lemma {:induction false} MatchedLeads(fs: FileSystem, path: Path, i: nat, matches: seq<Path>, seen: set<Path>,
                                        q: Path)
    returns (f: Path)
    requires path in fs.files && i < |Lines(fs, path)| && q in ExpandMatches(fs, path, i, matches, seen).visited
    ensures f in matches && Leads(fs, seen, f, q)
    decreases |fs.files.Keys - seen|, |Lines(fs, path)| - i, 0, |matches|
  {
    var file := matches[0];
    if file !in fs.files || file in seen {
      f := MatchedLeads(fs, path, i, matches[1..], seen, q);
    } else {
      UnseenShrinks(fs, seen, seen + {file}, file);
      var body := ExpandFrom(fs, file, 0, seen + {file});
      Unseen(fs, seen, body.seen);
      if q == file {
        f := file;
        LeadsSelf(fs, seen, file);
      } else if q in body.visited {
        f := file;
        var k, m := ExpandedLeads(fs, file, 0, seen + {file}, q);
        NestedLeads(fs, file, k, m, seen, q);
      } else {
        f := MatchedLeads(fs, path, i, matches[1..], body.seen, q);
        var steps: nat :| LeadsIn(fs, body.seen, f, q, steps);
        LeadsInLess(fs, seen, body.seen, f, q, steps);
      }
    }
  }

  lemma {:induction false} NestedLeads(fs: FileSystem, file: Path, k: nat, m: Path, seen: set<Path>, q: Path)
    requires file !in seen && Reaches(fs, file, k, m, seen + {file}, q)
    ensures Leads(fs, seen, file, q)
  {
    LeadsFrom(fs, seen + {file}, m, q);
    var steps: nat :| LeadsIn(fs, seen + {file}, m, q, steps);
    LeadsInLess(fs, seen, seen + {file}, m, q, steps);
    assert Includes(fs, file, m);
    LeadsStep(fs, seen, file, m, q);
  }

  lemma {:induction false} MatchesExactly(fs: FileSystem, path: Path, i: nat, matches: seq<Path>, seen: set<Path>,
                                          q: Path)
    requires path in fs.files && i < |Lines(fs, path)|
    ensures q in ExpandMatches(fs, path, i, matches, seen).visited <==> exists f <- matches :: Leads(fs, seen, f, q)
  {
    var r := ExpandMatches(fs, path, i, matches, seen);
    if q in r.visited {
      var f := MatchedLeads(fs, path, i, matches, seen, q);
    }
    if f :| f in matches && Leads(fs, seen, f, q) {
      LeadsFrom(fs, seen, f, q);
      MatchesSwept(fs, path, i, matches, seen);
      ExpandMatchesClosed(fs, path, i, matches, seen);
      SweptInside(fs, seen, r.seen, f, q);
      assert q in ToSet(r.visited);
    }
  }

  /** Exactly the files are expanded that some include line reaches along unseen files. */
  lemma {:induction false} ExpandedExactly(fs: FileSystem, path: Path, i: nat, seen: set<Path>, q: Path)
    requires path in fs.files && i <= |Lines(fs, path)|
    ensures q in ExpandFrom(fs, path, i, seen).visited <==> exists k, f :: i <= k && Reaches(fs, path, k, f, seen, q)
  {
    var r := ExpandFrom(fs, path, i, seen);
    if q in r.visited {
      var k, f := ExpandedLeads(fs, path, i, seen, q);
    }
    if k, f :| i <= k && Reaches(fs, path, k, f, seen, q) {
      LeadsFrom(fs, seen, f, q);
      ExpandedSwept(fs, path, i, seen);
      ExpandFromClosed(fs, path, i, seen);
      SweptInside(fs, seen, r.seen, f, q);
      assert q in ToSet(r.visited);
    }
  }

  lemma {:induction false} HereExactly(fs: FileSystem, path: Path, i: nat, seen: set<Path>, q: Path)
    requires path in fs.files && i < |Lines(fs, path)|
    ensures q in Here(fs, path, i, seen).visited <==> exists f :: Reaches(fs, path, i, f, seen, q)
  {
    var argument := IncludeArgument(Lines(fs, path)[i]);
    if argument.Some? {
      var matches := Matches(fs, path, argument.value);
      MatchesExactly(fs, path, i, matches, seen, q);
      if f :| f in matches && Leads(fs, seen, f, q) {
        MatchesMembers(fs, path, argument.value, f);
        assert Reaches(fs, path, i, f, seen, q);
      }
      if f :| Reaches(fs, path, i, f, seen, q) {
        MatchesMembers(fs, path, argument.value, f);
      }
    }
  }

  // ----- where a file's output stands

  ghost predicate Mentions(pieces: seq<Piece>, q: Path) {
    exists a :: 0 <= a < |pieces| && pieces[a].path == q
  }

  /** Everything of `x` stands before everything of `y`. */
  ghost predicate Precede(pieces: seq<Piece>, x: Path, y: Path) {
    forall a, b :: 0 <= a < |pieces| && 0 <= b < |pieces| && pieces[a].path == x && pieces[b].path == y ==> a < b
  }

  lemma {:induction false} FromNothing(pieces: seq<Piece>, q: Path)
    requires From(pieces, q) == []
    ensures !Mentions(pieces, q)
  {
    if pieces != [] {
      FromNothing(pieces[1..], q);
      forall a | 0 <= a < |pieces| ensures pieces[a].path != q {
        assert a > 0 ==> pieces[a] == pieces[1..][a - 1];
      }
    }
  }

  /** What was not expanded is not mentioned. */
  lemma {:induction false} Unmentioned(fs: FileSystem, path: Path, i: nat, seen: set<Path>, q: Path)
    requires path in fs.files && i <= |Lines(fs, path)| && path in seen
    requires q != path && q !in ExpandFrom(fs, path, i, seen).visited
    ensures !Mentions(ExpandFrom(fs, path, i, seen).pieces, q)
  {
    ExpandFromOwn(fs, path, i, seen, q);
    FromNothing(ExpandFrom(fs, path, i, seen).pieces, q);
  }

  lemma {:induction false} MatchesUnmentioned(fs: FileSystem, path: Path, i: nat, matches: seq<Path>, seen: set<Path>,
                                              q: Path)
    requires path in fs.files && i < |Lines(fs, path)| && path in seen
    requires q == path || q !in ExpandMatches(fs, path, i, matches, seen).visited
    ensures !Mentions(ExpandMatches(fs, path, i, matches, seen).pieces, q)
  {
    ExpandMatchesOwn(fs, path, i, matches, seen, q);
    FromNothing(ExpandMatches(fs, path, i, matches, seen).pieces, q);
  }

  lemma {:induction false} HereUnmentioned(fs: FileSystem, path: Path, i: nat, seen: set<Path>, q: Path)
    requires path in fs.files && i < |Lines(fs, path)| && path in seen
    requires q != path && q !in Here(fs, path, i, seen).visited
    ensures !Mentions(Here(fs, path, i, seen).pieces, q)
  {
    var argument := IncludeArgument(Lines(fs, path)[i]);
    if argument.Some? {
      MatchesUnmentioned(fs, path, i, Matches(fs, path, argument.value), seen, q);
    }
  }

  lemma {:induction false} InPart(a: seq<Piece>, b: seq<Piece>, i: nat, q: Path)
    requires i < |a + b| && (a + b)[i].path == q
    ensures if i < |a| then Mentions(a, q) else Mentions(b, q)
  {
    if i < |a| {
      assert a[i].path == q;
    } else {
      assert b[i - |a|].path == q;
    }
  }

  lemma {:induction false} PrecedeApart(a: seq<Piece>, b: seq<Piece>, x: Path, y: Path)
    requires !Mentions(a, y) && !Mentions(b, x)
    ensures Precede(a + b, x, y)
  {
    forall i, j | 0 <= i < |a + b| && 0 <= j < |a + b| && (a + b)[i].path == x && (a + b)[j].path == y
      ensures i < j
    {
      InPart(a, b, i, x);
      InPart(a, b, j, y);
    }
  }

  lemma {:induction false} PrecedeLater(a: seq<Piece>, b: seq<Piece>, x: Path, y: Path)
    requires !Mentions(a, x) && !Mentions(a, y) && Precede(b, x, y)
    ensures Precede(a + b, x, y)
  {
    forall i, j | 0 <= i < |a + b| && 0 <= j < |a + b| && (a + b)[i].path == x && (a + b)[j].path == y
      ensures i < j
    {
      InPart(a, b, i, x);
      InPart(a, b, j, y);
      assert b[i - |a|].path == x && b[j - |a|].path == y;
    }
  }

  lemma {:induction false} PrecedeEarlier(a: seq<Piece>, b: seq<Piece>, x: Path, y: Path)
    requires Precede(a, x, y) && !Mentions(b, x) && !Mentions(b, y)
    ensures Precede(a + b, x, y)
  {
    forall i, j | 0 <= i < |a + b| && 0 <= j < |a + b| && (a + b)[i].path == x && (a + b)[j].path == y
      ensures i < j
    {
      InPart(a, b, i, x);
      InPart(a, b, j, y);
      assert a[i].path == x && a[j].path == y;
    }
  }

  /** Include line `k` and match `f` are the first, by line and then by text, that reach `x`. */
  ghost predicate FirstReaches(fs: FileSystem, path: Path, i: nat, seen: set<Path>, k: nat, f: Path, x: Path) {
    && i <= k && Reaches(fs, path, k, f, seen, x)
    && forall l, g :: i <= l && Reaches(fs, path, l, g, seen, x) ==> k < l || (k == l && !Less(g, f))
  }

  /** After a line that does not reach `x`, the same lines and matches reach it first. */
  lemma {:induction false} FirstLater(fs: FileSystem, path: Path, i: nat, seen: set<Path>, k: nat, f: Path, x: Path)
    requires path in fs.files && i < |Lines(fs, path)| && i < k && FirstReaches(fs, path, i, seen, k, f, x)
    ensures x !in Here(fs, path, i, seen).visited
    ensures FirstReaches(fs, path, i + 1, Here(fs, path, i, seen).seen, k, f, x)
  {
    var here := Here(fs, path, i, seen);
    HereExactly(fs, path, i, seen, x);
    HereSwept(fs, path, i, seen);
    LeadsFrom(fs, seen, f, x);
    assert x !in here.seen by {
      assert x in here.seen - seen ==> x in ToSet(here.visited);
    }
    forall l, g ensures Reaches(fs, path, l, g, seen, x) <==> Reaches(fs, path, l, g, here.seen, x) {
      SweptLeads(fs, seen, here.seen, g, x);
    }
  }

  /** Of two files that matches reach, the one that is reached by an earlier match first comes out first. */
  lemma {:induction false} MatchesInOrder(fs: FileSystem, path: Path, i: nat, matches: seq<Path>, seen: set<Path>,
                                          f: Path, x: Path, g: Path, y: Path)
    requires path in fs.files && i < |Lines(fs, path)| && path in seen
    requires forall a, b :: 0 <= a < b < |matches| ==> !Less(matches[b], matches[a])
    requires f in matches && Leads(fs, seen, f, x) && Leads(fs, seen, g, y) && Less(f, g)
    requires forall m <- matches :: Leads(fs, seen, m, y) ==> !Less(m, g)
    ensures Precede(ExpandMatches(fs, path, i, matches, seen).pieces, x, y)
    decreases |matches|, 1
  {
    var file := matches[0];
    LeadsFrom(fs, seen, f, x);
    LeadsFrom(fs, seen, g, y);
    if file !in fs.files || file in seen {
      assert f in matches[1..];
      MatchesInOrder(fs, path, i, matches[1..], seen, f, x, g, y);
    } else {
      NewMatchInOrder(fs, path, i, matches, seen, f, x, g, y);
    }
  }

  lemma {:induction false} NewMatchInOrder(fs: FileSystem, path: Path, i: nat, matches: seq<Path>, seen: set<Path>,
                                           f: Path, x: Path, g: Path, y: Path)
    requires path in fs.files && i < |Lines(fs, path)| && path in seen
    requires matches != [] && matches[0] in fs.files && matches[0] !in seen
    requires forall a, b :: 0 <= a < b < |matches| ==> !Less(matches[b], matches[a])
    requires f in matches && Leads(fs, seen, f, x) && Leads(fs, seen, g, y) && Less(f, g)
    requires forall m <- matches :: Leads(fs, seen, m, y) ==> !Less(m, g)
    ensures Precede(ExpandMatches(fs, path, i, matches, seen).pieces, x, y)
    decreases |matches|, 0
  {
    var file := matches[0];
    var body := ExpandFrom(fs, file, 0, seen + {file});
    var rest := ExpandMatches(fs, path, i, matches[1..], body.seen);
    FirstMatch(fs, path, i, matches, seen);
    NotNested(fs, matches, seen, f, g, y);
    NestedUnmentioned(fs, file, seen, y);
    LeadsFrom(fs, seen, f, x);
    MatchesSwept(fs, path, i, matches[1..], body.seen);
    if x in body.seen {
      assert x !in rest.visited by {
        assert x in rest.visited ==> x in ToSet(rest.visited);
      }
      MatchesUnmentioned(fs, path, i, matches[1..], body.seen, x);
      PrecedeApart(Nested(file, body).pieces, rest.pieces, x, y);
    } else {
      if f == file {
        SweptInside(fs, seen, body.seen, file, x);
      }
      NestedUnmentioned(fs, file, seen, x);
      SweptLeads(fs, seen, body.seen, f, x);
      SweptLeads(fs, seen, body.seen, g, y);
      forall m | m in matches[1..] && Leads(fs, body.seen, m, y) ensures !Less(m, g) {
        SweptLeads(fs, seen, body.seen, m, y);
      }
      MatchesInOrder(fs, path, i, matches[1..], body.seen, f, x, g, y);
      PrecedeLater(Nested(file, body).pieces, rest.pieces, x, y);
    }
  }

  /** What is expanded under a match is what the match leads to. */
  lemma {:induction false} NestedExactly(fs: FileSystem, file: Path, seen: set<Path>, q: Path)
    requires file in fs.files && file !in seen
    ensures var body := ExpandFrom(fs, file, 0, seen + {file});
            q in body.seen - seen <==> Leads(fs, seen, file, q)
  {
    var body := ExpandFrom(fs, file, 0, seen + {file});
    ExpandedSwept(fs, file, 0, seen + {file});
    if q in body.seen - seen {
      if q == file {
        LeadsSelf(fs, seen, file);
      } else {
        assert q in ToSet(body.visited);
        var k, m := ExpandedLeads(fs, file, 0, seen + {file}, q);
        NestedLeads(fs, file, k, m, seen, q);
      }
    }
    if Leads(fs, seen, file, q) {
      NestedSwept(fs, file, seen);
      SweptInside(fs, seen, body.seen, file, q);
      LeadsFrom(fs, seen, file, q);
    }
  }

  lemma {:induction false} NestedUnmentioned(fs: FileSystem, file: Path, seen: set<Path>, q: Path)
    requires file in fs.files && file !in seen && q !in ExpandFrom(fs, file, 0, seen + {file}).seen
    ensures !Mentions(Nested(file, ExpandFrom(fs, file, 0, seen + {file})).pieces, q)
  {
    var body := ExpandFrom(fs, file, 0, seen + {file});
    ExpandedSwept(fs, file, 0, seen + {file});
    assert q in body.visited ==> q in ToSet(body.visited);
    Unmentioned(fs, file, 0, seen + {file}, q);
    forall a | 0 <= a < |body.pieces + [Break(file)]| ensures (body.pieces + [Break(file)])[a].path != q {
      if a < |body.pieces| {
        assert body.pieces[a].path != q;
      }
    }
  }

  /** The first match does not lead to a file that is first reached by a match after some other one. */
  lemma {:induction false} NotNested(fs: FileSystem, matches: seq<Path>, seen: set<Path>, f: Path, g: Path, y: Path)
    requires matches != [] && matches[0] in fs.files && matches[0] !in seen
    requires forall a, b :: 0 <= a < b < |matches| ==> !Less(matches[b], matches[a])
    requires f in matches && Less(f, g) && Leads(fs, seen, g, y)
    requires forall m <- matches :: Leads(fs, seen, m, y) ==> !Less(m, g)
    ensures y !in ExpandFrom(fs, matches[0], 0, seen + {matches[0]}).seen
  {
    var file := matches[0];
    LeadsFrom(fs, seen, g, y);
    NestedExactly(fs, file, seen, y);
    assert Less(file, g) by {
      var a :| 0 <= a < |matches| && matches[a] == f;
      LessTotal(file, f);
      if Less(file, f) {
        LessTransitive(file, f, g);
      }
    }
  }

  // ----- the output of a whole file

  /** Of two files, the one whose first include line comes earlier, or whose first match of the same line
      is smaller, has all of its output before the other's. */
  lemma {:induction false} FilesInOrder(fs: FileSystem, path: Path, i: nat, seen: set<Path>, k: nat, f: Path, x: Path,
                                        l: nat, g: Path, y: Path)
    requires path in fs.files && i <= |Lines(fs, path)| && path in seen
    requires FirstReaches(fs, path, i, seen, k, f, x) && FirstReaches(fs, path, i, seen, l, g, y)
    requires k < l || (k == l && Less(f, g))
    ensures Precede(ExpandFrom(fs, path, i, seen).pieces, x, y)
    decreases |Lines(fs, path)| - i
  {
    var here := Here(fs, path, i, seen);
    LeadsFrom(fs, seen, f, x);
    LeadsFrom(fs, seen, g, y);
    if i < k {
      FirstLater(fs, path, i, seen, k, f, x);
      FirstLater(fs, path, i, seen, l, g, y);
      FilesInOrder(fs, path, i + 1, here.seen, k, f, x, l, g, y);
      LinePrecedes(fs, path, i, seen, x, y);
    } else if i < l {
      FirstLater(fs, path, i, seen, l, g, y);
      LaterUnmentioned(fs, path, i, seen, f, x);
      HereUnmentioned(fs, path, i, seen, y);
      HereThen(fs, path, i, seen);
      PrecedeApart(here.pieces, ExpandFrom(fs, path, i + 1, here.seen).pieces, x, y);
    } else {
      LaterUnmentioned(fs, path, i, seen, f, x);
      LaterUnmentioned(fs, path, i, seen, g, y);
      SameLineInOrder(fs, path, i, seen, f, x, g, y);
      HereThen(fs, path, i, seen);
      PrecedeEarlier(here.pieces, ExpandFrom(fs, path, i + 1, here.seen).pieces, x, y);
    }
  }

  /** A line that expands neither file leaves their order to the lines after it. */
  lemma {:induction false} LinePrecedes(fs: FileSystem, path: Path, i: nat, seen: set<Path>, x: Path, y: Path)
    requires path in fs.files && i < |Lines(fs, path)| && path in seen && x != path && y != path
    requires x !in Here(fs, path, i, seen).visited && y !in Here(fs, path, i, seen).visited
    requires Precede(ExpandFrom(fs, path, i + 1, Here(fs, path, i, seen).seen).pieces, x, y)
    ensures Precede(ExpandFrom(fs, path, i, seen).pieces, x, y)
  {
    var here := Here(fs, path, i, seen);
    HereThen(fs, path, i, seen);
    HereUnmentioned(fs, path, i, seen, x);
    HereUnmentioned(fs, path, i, seen, y);
    PrecedeLater(here.pieces, ExpandFrom(fs, path, i + 1, here.seen).pieces, x, y);
  }

  /** What a line expands is not mentioned after it. */
  lemma {:induction false} LaterUnmentioned(fs: FileSystem, path: Path, i: nat, seen: set<Path>, f: Path, x: Path)
    requires path in fs.files && i < |Lines(fs, path)| && path in seen && Reaches(fs, path, i, f, seen, x)
    ensures !Mentions(ExpandFrom(fs, path, i + 1, Here(fs, path, i, seen).seen).pieces, x)
  {
    var here := Here(fs, path, i, seen);
    HereExactly(fs, path, i, seen, x);
    HereVisitsOnce(fs, path, i, seen);
    ExpandFromVisitsOnce(fs, path, i + 1, here.seen);
    LeadsFrom(fs, seen, f, x);
    assert x in ToSet(here.visited);
    Unmentioned(fs, path, i + 1, here.seen, x);
  }

  lemma {:induction false} SameLineInOrder(fs: FileSystem, path: Path, i: nat, seen: set<Path>, f: Path, x: Path,
                                           g: Path, y: Path)
    requires path in fs.files && i < |Lines(fs, path)| && path in seen && Less(f, g)
    requires FirstReaches(fs, path, i, seen, i, f, x) && FirstReaches(fs, path, i, seen, i, g, y)
    ensures Precede(Here(fs, path, i, seen).pieces, x, y)
  {
    var argument := IncludeArgument(Lines(fs, path)[i]);
    var matches := Matches(fs, path, argument.value);
    MatchesAscend(fs, path, argument.value);
    MatchesMembers(fs, path, argument.value, f);
    forall m | m in matches && Leads(fs, seen, m, y) ensures !Less(m, g) {
      MatchesMembers(fs, path, argument.value, m);
      assert Reaches(fs, path, i, m, seen, y);
    }
    MatchesInOrder(fs, path, i, matches, seen, f, x, g, y);
  }

  /** Everything of `x` stands after the own lines of `path` before line `k` and before those after it. */
  ghost predicate Between(pieces: seq<Piece>, path: Path, k: nat, x: Path) {
    forall a, b :: 0 <= a < |pieces| && 0 <= b < |pieces| && pieces[a].path == x && pieces[b].path == path ==>
      pieces[b].Line? && pieces[b].index != k && if pieces[b].index < k then b < a else a < b
  }

  /** An expanded file's output stands between the includer's own lines before and after the first
      include line that reaches it. */
  lemma {:induction false} IncludedBetween(fs: FileSystem, path: Path, i: nat, seen: set<Path>, k: nat, f: Path,
                                           x: Path)
    requires path in fs.files && i <= |Lines(fs, path)| && path in seen && FirstReaches(fs, path, i, seen, k, f, x)
    ensures Between(ExpandFrom(fs, path, i, seen).pieces, path, k, x)
    decreases |Lines(fs, path)| - i
  {
    LeadsFrom(fs, seen, f, x);
    if i < k {
      FirstLater(fs, path, i, seen, k, f, x);
      IncludedBetween(fs, path, i + 1, Here(fs, path, i, seen).seen, k, f, x);
      BetweenPast(fs, path, i, seen, k, x);
    } else {
      LaterUnmentioned(fs, path, i, seen, f, x);
      BetweenAt(fs, path, i, seen, x);
    }
  }

  /** A line before the include line. */
  lemma {:induction false} BetweenPast(fs: FileSystem, path: Path, i: nat, seen: set<Path>, k: nat, x: Path)
    requires path in fs.files && i < |Lines(fs, path)| && path in seen && i < k && x != path
    requires x !in Here(fs, path, i, seen).visited
    requires Between(ExpandFrom(fs, path, i + 1, Here(fs, path, i, seen).seen).pieces, path, k, x)
    ensures Between(ExpandFrom(fs, path, i, seen).pieces, path, k, x)
  {
    var here := Here(fs, path, i, seen);
    HereThen(fs, path, i, seen);
    HereOwn(fs, path, i, seen);
    HereUnmentioned(fs, path, i, seen, x);
    BetweenLater(here.pieces, ExpandFrom(fs, path, i + 1, here.seen).pieces, path, i, k, x);
  }

  /** The include line itself. */
  lemma {:induction false} BetweenAt(fs: FileSystem, path: Path, i: nat, seen: set<Path>, x: Path)
    requires path in fs.files && i < |Lines(fs, path)| && path in seen
    requires IncludeArgument(Lines(fs, path)[i]).Some?
    requires !Mentions(ExpandFrom(fs, path, i + 1, Here(fs, path, i, seen).seen).pieces, x)
    ensures Between(ExpandFrom(fs, path, i, seen).pieces, path, i, x)
  {
    var here := Here(fs, path, i, seen);
    HereThen(fs, path, i, seen);
    HereOwn(fs, path, i, seen);
    OwnLater(fs, path, i + 1, here.seen);
    BetweenHere(here.pieces, ExpandFrom(fs, path, i + 1, here.seen).pieces, path, i, x);
  }

  /** The only own piece a line writes is its own text. */
  lemma {:induction false} HereOwn(fs: FileSystem, path: Path, i: nat, seen: set<Path>)
    requires path in fs.files && i < |Lines(fs, path)| && path in seen
    ensures forall b :: 0 <= b < |Here(fs, path, i, seen).pieces| && Here(fs, path, i, seen).pieces[b].path == path ==>
              Here(fs, path, i, seen).pieces[b] == Line(path, i) && IncludeArgument(Lines(fs, path)[i]).None?
  {
    var argument := IncludeArgument(Lines(fs, path)[i]);
    if argument.Some? {
      MatchesUnmentioned(fs, path, i, Matches(fs, path, argument.value), seen, path);
    }
  }

  /** Own pieces of later lines carry later line numbers. */
  ghost predicate OwnFromLine(pieces: seq<Piece>, path: Path, i: nat) {
    forall b :: 0 <= b < |pieces| && pieces[b].path == path ==> pieces[b].Line? && pieces[b].index >= i
  }

  lemma {:induction false} OwnLater(fs: FileSystem, path: Path, i: nat, seen: set<Path>)
    requires path in fs.files && i <= |Lines(fs, path)| && path in seen
    ensures OwnFromLine(ExpandFrom(fs, path, i, seen).pieces, path, i)
    decreases |Lines(fs, path)| - i
  {
    if i < |Lines(fs, path)| {
      var here := Here(fs, path, i, seen);
      var rest := ExpandFrom(fs, path, i + 1, here.seen);
      HereThen(fs, path, i, seen);
      HereOwn(fs, path, i, seen);
      OwnLater(fs, path, i + 1, here.seen);
      var all := here.pieces + rest.pieces;
      forall b | 0 <= b < |all| && all[b].path == path ensures all[b].Line? && all[b].index >= i {
        if b < |here.pieces| {
          assert here.pieces[b].path == path;
        } else {
          assert rest.pieces[b - |here.pieces|].path == path;
        }
      }
    }
  }

  lemma {:induction false} BetweenLater(a: seq<Piece>, b: seq<Piece>, path: Path, i: nat, k: nat, x: Path)
    requires !Mentions(a, x) && Between(b, path, k, x) && i < k
    requires forall m :: 0 <= m < |a| && a[m].path == path ==> a[m] == Line(path, i)
    ensures Between(a + b, path, k, x)
  {
    forall m, n | 0 <= m < |a + b| && 0 <= n < |a + b| && (a + b)[m].path == x && (a + b)[n].path == path
      ensures var p := (a + b)[n]; p.Line? && p.index != k && if p.index < k then n < m else m < n
    {
      InPart(a, b, m, x);
      assert b[m - |a|].path == x;
      if n < |a| {
        assert a[n].path == path;
      } else {
        assert b[n - |a|].path == path;
      }
    }
  }

  lemma {:induction false} BetweenHere(a: seq<Piece>, b: seq<Piece>, path: Path, k: nat, x: Path)
    requires !Mentions(a, path) && !Mentions(b, x) && OwnFromLine(b, path, k + 1)
    ensures Between(a + b, path, k, x)
  {
    forall m, n | 0 <= m < |a + b| && 0 <= n < |a + b| && (a + b)[m].path == x && (a + b)[n].path == path
      ensures var p := (a + b)[n]; p.Line? && p.index > k && m < n
    {
      InPart(a, b, m, x);
      InPart(a, b, n, path);
      assert b[n - |a|].path == path;
    }
  }

  // ----- one stretch of output

  /** Some include line, earlier than `k` or at `k` with a smaller match than `f`, reaches `x`. */
  ghost predicate Earlier(fs: FileSystem, path: Path, i: nat, seen: set<Path>, k: nat, f: Path, x: Path) {
    exists l, g :: i <= l && Reaches(fs, path, l, g, seen, x) && (l < k || (l == k && Less(g, f)))
  }

  /** At position `at`, the output of `file` with `before` seen, followed by its closing newline. */
  ghost predicate StretchAt(fs: FileSystem, pieces: seq<Piece>, at: nat, file: Path, before: set<Path>)
    requires file in fs.files
  {
    var own := Nested(file, ExpandFrom(fs, file, 0, before + {file})).pieces;
    at + |own| <= |pieces| && pieces[at..at + |own|] == own
  }

  lemma {:induction false} StretchLater(fs: FileSystem, a: seq<Piece>, b: seq<Piece>, at: nat, file: Path,
                                        before: set<Path>)
    requires file in fs.files && StretchAt(fs, b, at, file, before)
    ensures StretchAt(fs, a + b, |a| + at, file, before)
  {
    var own := Nested(file, ExpandFrom(fs, file, 0, before + {file})).pieces;
    assert (a + b)[|a| + at..|a| + at + |own|] == b[at..at + |own|];
  }

  lemma {:induction false} StretchEarlier(fs: FileSystem, a: seq<Piece>, b: seq<Piece>, at: nat, file: Path,
                                          before: set<Path>)
    requires file in fs.files && StretchAt(fs, a, at, file, before)
    ensures StretchAt(fs, a + b, at, file, before)
  {
    var own := Nested(file, ExpandFrom(fs, file, 0, before + {file})).pieces;
    assert (a + b)[at..at + |own|] == a[at..at + |own|];
  }

  lemma {:induction false} MatchStretch(fs: FileSystem, path: Path, i: nat, matches: seq<Path>, seen: set<Path>,
                                        f: Path) returns (at: nat, before: set<Path>)
    requires path in fs.files && i < |Lines(fs, path)|
    requires forall a, b :: 0 <= a < b < |matches| ==> !Less(matches[b], matches[a])
    requires f in matches && f in fs.files && f !in seen
    requires forall m <- matches :: Leads(fs, seen, m, f) ==> !Less(m, f)
    ensures StretchAt(fs, ExpandMatches(fs, path, i, matches, seen).pieces, at, f, before)
    ensures forall x :: x in before <==> x in seen || ByMatchBefore(fs, matches, seen, f, x)
    decreases |matches|
  {
    var file := matches[0];
    if file !in fs.files || file in seen {
      at, before := MatchStretch(fs, path, i, matches[1..], seen, f);
      forall x ensures ByMatchBefore(fs, matches, seen, f, x) <==> ByMatchBefore(fs, matches[1..], seen, f, x) {
        SkippedMatch(fs, matches, seen, f, x);
      }
    } else if file == f {
      at, before := 0, seen;
      assert forall m <- matches :: !Less(m, f) by {
        NotLessSelf(f);
      }
      FirstMatch(fs, path, i, matches, seen);
    } else {
      at, before := LaterStretch(fs, path, i, matches, seen, f);
    }
  }

  /** A match smaller than `f` leads to `x`. */
  ghost predicate ByMatchBefore(fs: FileSystem, matches: seq<Path>, seen: set<Path>, f: Path, x: Path) {
    exists m <- matches :: Less(m, f) && Leads(fs, seen, m, x)
  }

  lemma {:induction false} SkippedMatch(fs: FileSystem, matches: seq<Path>, seen: set<Path>, f: Path, x: Path)
    requires matches != [] && (matches[0] !in fs.files || matches[0] in seen)
    ensures ByMatchBefore(fs, matches, seen, f, x) <==> ByMatchBefore(fs, matches[1..], seen, f, x)
  {
    if m :| m in matches && Less(m, f) && Leads(fs, seen, m, x) {
      LeadsFrom(fs, seen, m, x);
      assert m in matches[1..];
    }
    if m :| m in matches[1..] && Less(m, f) && Leads(fs, seen, m, x) {
      assert m in matches;
    }
  }

  lemma {:induction false} LaterStretch(fs: FileSystem, path: Path, i: nat, matches: seq<Path>, seen: set<Path>,
                                        f: Path) returns (at: nat, before: set<Path>)
    requires path in fs.files && i < |Lines(fs, path)|
    requires forall a, b :: 0 <= a < b < |matches| ==> !Less(matches[b], matches[a])
    requires f in matches && f in fs.files && f !in seen
    requires forall m <- matches :: Leads(fs, seen, m, f) ==> !Less(m, f)
    requires matches[0] in fs.files && matches[0] !in seen && matches[0] != f
    ensures StretchAt(fs, ExpandMatches(fs, path, i, matches, seen).pieces, at, f, before)
    ensures forall x :: x in before <==> x in seen || ByMatchBefore(fs, matches, seen, f, x)
    decreases |matches|, 0
  {
    var file := matches[0];
    var body := ExpandFrom(fs, file, 0, seen + {file});
    FirstMatch(fs, path, i, matches, seen);
    LessTotal(file, f);
    NestedExactly(fs, file, seen, f);
    forall m | m in matches[1..] && Leads(fs, body.seen, m, f) ensures !Less(m, f) {
      SweptLeads(fs, seen, body.seen, m, f);
    }
    var later: nat;
    later, before := MatchStretch(fs, path, i, matches[1..], body.seen, f);
    StretchLater(fs, Nested(file, body).pieces, ExpandMatches(fs, path, i, matches[1..], body.seen).pieces, later, f,
                 before);
    at := |Nested(file, body).pieces| + later;
    forall x ensures x in before <==> x in seen || ByMatchBefore(fs, matches, seen, f, x) {
      NewMatch(fs, matches, seen, f, x);
    }
  }

  lemma {:induction false} NewMatch(fs: FileSystem, matches: seq<Path>, seen: set<Path>, f: Path, x: Path)
    requires matches != [] && matches[0] in fs.files && matches[0] !in seen && Less(matches[0], f)
    ensures var body := ExpandFrom(fs, matches[0], 0, seen + {matches[0]});
            x in body.seen || ByMatchBefore(fs, matches[1..], body.seen, f, x)
            <==> x in seen || ByMatchBefore(fs, matches, seen, f, x)
  {
    var file := matches[0];
    var body := ExpandFrom(fs, file, 0, seen + {file});
    NestedSwept(fs, file, seen);
    NestedExactly(fs, file, seen, x);
    if x !in body.seen {
      forall m ensures Leads(fs, seen, m, x) <==> Leads(fs, body.seen, m, x) {
        SweptLeads(fs, seen, body.seen, m, x);
      }
      if m :| m in matches && Less(m, f) && Leads(fs, seen, m, x) {
        assert m in matches[1..];
      }
      if m :| m in matches[1..] && Less(m, f) && Leads(fs, body.seen, m, x) {
        assert m in matches;
      }
    }
  }

  /** The output of a file that is first reached as a match of line `k` itself is one stretch: what
      expanding it gives when exactly the files reached earlier count as seen. */
  lemma {:induction false} OneStretch(fs: FileSystem, path: Path, i: nat, seen: set<Path>, k: nat, f: Path)
    returns (at: nat, before: set<Path>)
    requires path in fs.files && i <= |Lines(fs, path)| && FirstReaches(fs, path, i, seen, k, f, f) && f in fs.files
    ensures StretchAt(fs, ExpandFrom(fs, path, i, seen).pieces, at, f, before)
    ensures forall x :: x in before <==> x in seen || Earlier(fs, path, i, seen, k, f, x)
    decreases |Lines(fs, path)| - i
  {
    var here := Here(fs, path, i, seen);
    var rest := ExpandFrom(fs, path, i + 1, here.seen);
    HereThen(fs, path, i, seen);
    if i < k {
      FirstLater(fs, path, i, seen, k, f, f);
      at, before := OneStretch(fs, path, i + 1, here.seen, k, f);
      StretchLater(fs, here.pieces, rest.pieces, at, f, before);
      at := |here.pieces| + at;
      BeforeLater(fs, path, i, seen, k, f, before);
    } else {
      at, before := SameLineStretch(fs, path, i, seen, f);
      StretchEarlier(fs, here.pieces, rest.pieces, at, f, before);
    }
  }

  lemma {:induction false} BeforeLater(fs: FileSystem, path: Path, i: nat, seen: set<Path>, k: nat, f: Path,
                                       before: set<Path>)
    requires path in fs.files && i < |Lines(fs, path)| && i < k
    requires var after := Here(fs, path, i, seen).seen;
             forall x :: x in before <==> x in after || Earlier(fs, path, i + 1, after, k, f, x)
    ensures forall x :: x in before <==> x in seen || Earlier(fs, path, i, seen, k, f, x)
  {
    forall x ensures x in before <==> x in seen || Earlier(fs, path, i, seen, k, f, x) {
      EarlierLater(fs, path, i, seen, k, f, x);
    }
  }

  lemma {:induction false} EarlierLater(fs: FileSystem, path: Path, i: nat, seen: set<Path>, k: nat, f: Path, x: Path)
    requires path in fs.files && i < |Lines(fs, path)| && i < k
    ensures var after := Here(fs, path, i, seen).seen;
            x in after || Earlier(fs, path, i + 1, after, k, f, x) <==> x in seen || Earlier(fs, path, i, seen, k, f, x)
  {
    var here := Here(fs, path, i, seen);
    HereExactly(fs, path, i, seen, x);
    HereSwept(fs, path, i, seen);
    assert x in ToSet(here.visited) <==> x in here.visited;
    if x !in here.seen {
      forall l, g ensures Reaches(fs, path, l, g, seen, x) <==> Reaches(fs, path, l, g, here.seen, x) {
        SweptLeads(fs, seen, here.seen, g, x);
      }
    }
  }

  lemma {:induction false} SameLineStretch(fs: FileSystem, path: Path, i: nat, seen: set<Path>, f: Path)
    returns (at: nat, before: set<Path>)
    requires path in fs.files && i < |Lines(fs, path)| && FirstReaches(fs, path, i, seen, i, f, f) && f in fs.files
    ensures StretchAt(fs, Here(fs, path, i, seen).pieces, at, f, before)
    ensures forall x :: x in before <==> x in seen || Earlier(fs, path, i, seen, i, f, x)
  {
    var argument := IncludeArgument(Lines(fs, path)[i]);
    var matches := Matches(fs, path, argument.value);
    MatchesAscend(fs, path, argument.value);
    forall m ensures m in matches <==> IncludesAt(fs, path, i, m) {
      MatchesMembers(fs, path, argument.value, m);
    }
    forall m | m in matches && Leads(fs, seen, m, f) ensures !Less(m, f) {
      assert Reaches(fs, path, i, m, seen, f);
    }
    LeadsFrom(fs, seen, f, f);
    at, before := MatchStretch(fs, path, i, matches, seen, f);
    forall x ensures ByMatchBefore(fs, matches, seen, f, x) <==> Earlier(fs, path, i, seen, i, f, x) {
      if m :| m in matches && Less(m, f) && Leads(fs, seen, m, x) {
        assert Reaches(fs, path, i, m, seen, x);
      }
    }
  }

  // ----- lines of the output text

  /** Split into lines again, the text written for some pieces is their lines, and a last empty one. */
  lemma {:induction false} RenderedLines(fs: FileSystem, pieces: seq<Piece>)
    ensures Split(Render(fs, pieces), '\n') == Mapped((piece: Piece) => LineText(fs, piece), pieces) + [""]
  {
    if pieces != [] {
      var line := LineText(fs, pieces[0]);
      RenderedLines(fs, pieces[1..]);
      SplitConcat(line, Render(fs, pieces[1..]), '\n');
      assert line + "\n" + Render(fs, pieces[1..]) == line + ['\n'] + Render(fs, pieces[1..]);
      assert '\n' !in line by {
        if pieces[0].Line? && pieces[0].path in fs.files {
          SplitPieces(fs.files[pieces[0].path], '\n');
        }
      }
      SplitPlain(line, '\n');
    }
  }

  // ----- warnings

  /** What line `n` of `p` is warned about: an argument that matches nothing, or a match that cannot be read. */
  ghost predicate WarnsAt(fs: FileSystem, p: Path, n: nat, w: Warning) {
    && p in fs.files && n < |Lines(fs, p)|
    && match w
       case UnresolvedInclude(line, argument, within) =>
         && line == n + 1 && within == p && IncludeArgument(Lines(fs, p)[n]) == Some(argument)
         && fs.glob(p, argument) == []
       case UnreadableInclude(line, file) => line == n + 1 && IncludesAt(fs, p, n, file) && file !in fs.files
       case _ => false
  }

  /** A line of a file expanded along the way is warned about. */
  ghost predicate WarnedWithin(fs: FileSystem, visited: seq<Path>, w: Warning) {
    exists p, n :: p in visited && WarnsAt(fs, p, n, w)
  }

  ghost predicate WarnedFrom(fs: FileSystem, path: Path, i: nat, w: Warning) {
    exists n :: i <= n && WarnsAt(fs, path, n, w)
  }

  lemma {:induction false} WarnedConcat(fs: FileSystem, a: seq<Path>, b: seq<Path>, w: Warning)
    ensures WarnedWithin(fs, a + b, w) <==> WarnedWithin(fs, a, w) || WarnedWithin(fs, b, w)
  {
    if p, n :| p in a && WarnsAt(fs, p, n, w) {
      assert p in a + b;
    }
    if p, n :| p in b && WarnsAt(fs, p, n, w) {
      assert p in a + b;
    }
  }

  /** The warnings of an expansion are exactly those of the lines of the files it expands. */
  lemma {:induction false} WarnsExactly(fs: FileSystem, path: Path, i: nat, seen: set<Path>, w: Warning)
    requires path in fs.files && i <= |Lines(fs, path)|
    ensures var r := ExpandFrom(fs, path, i, seen);
            w in r.warnings <==> WarnedFrom(fs, path, i, w) || WarnedWithin(fs, r.visited, w)
    decreases |fs.files.Keys - seen|, |Lines(fs, path)| - i, 1, 0
  {
    if i < |Lines(fs, path)| {
      var here := Here(fs, path, i, seen);
      var argument := IncludeArgument(Lines(fs, path)[i]);
      HereThen(fs, path, i, seen);
      Unseen(fs, seen, here.seen);
      WarnsExactly(fs, path, i + 1, here.seen, w);
      WarnedConcat(fs, here.visited, ExpandFrom(fs, path, i + 1, here.seen).visited, w);
      if argument.Some? {
        MatchesWarn(fs, path, i, Matches(fs, path, argument.value), seen, w);
      }
      HereWarns(fs, path, i, seen, w);
      WarnedNext(fs, path, i, w);
    }
  }

  lemma {:induction false} WarnedNext(fs: FileSystem, path: Path, i: nat, w: Warning)
    ensures WarnedFrom(fs, path, i, w) <==> WarnsAt(fs, path, i, w) || WarnedFrom(fs, path, i + 1, w)
  {
  }

  lemma {:induction false} HereWarns(fs: FileSystem, path: Path, i: nat, seen: set<Path>, w: Warning)
    requires path in fs.files && i < |Lines(fs, path)|
    requires var argument := IncludeArgument(Lines(fs, path)[i]);
             argument.Some? ==>
               var matches := Matches(fs, path, argument.value);
               var r := ExpandMatches(fs, path, i, matches, seen);
               w in r.warnings <==> UnreadableIn(fs, i, matches, w) || WarnedWithin(fs, r.visited, w)
    ensures var here := Here(fs, path, i, seen);
            w in here.warnings <==> WarnsAt(fs, path, i, w) || WarnedWithin(fs, here.visited, w)
  {
    var argument := IncludeArgument(Lines(fs, path)[i]);
    if argument.Some? {
      var matches := Matches(fs, path, argument.value);
      forall m ensures m in matches <==> m in fs.glob(path, argument.value) {
        MatchesMembers(fs, path, argument.value, m);
      }
      MatchesAscend(fs, path, argument.value);
      assert |multiset(matches)| == |matches| == |fs.glob(path, argument.value)|;
    }
  }

  predicate UnreadableIn(fs: FileSystem, i: nat, matches: seq<Path>, w: Warning) {
    w.UnreadableInclude? && w.line == i + 1 && w.file in matches && w.file !in fs.files
  }

  lemma {:induction false} MatchesWarn(fs: FileSystem, path: Path, i: nat, matches: seq<Path>, seen: set<Path>,
                                       w: Warning)
    requires path in fs.files && i < |Lines(fs, path)|
    ensures var r := ExpandMatches(fs, path, i, matches, seen);
            w in r.warnings <==> UnreadableIn(fs, i, matches, w) || WarnedWithin(fs, r.visited, w)
    decreases |fs.files.Keys - seen|, |Lines(fs, path)| - i, 0, |matches|
  {
    if matches != [] {
      var file := matches[0];
      assert forall m :: m in matches <==> m == file || m in matches[1..];
      if file !in fs.files || file in seen {
        MatchesWarn(fs, path, i, matches[1..], seen, w);
      } else {
        UnseenShrinks(fs, seen, seen + {file}, file);
        var body := ExpandFrom(fs, file, 0, seen + {file});
        WarnsExactly(fs, file, 0, seen + {file}, w);
        Unseen(fs, seen, body.seen);
        MatchesWarn(fs, path, i, matches[1..], body.seen, w);
        WarnedConcat(fs, [file] + body.visited, ExpandMatches(fs, path, i, matches[1..], body.seen).visited, w);
        WarnedConcat(fs, [file], body.visited, w);
        WarnedOne(fs, file, w);
      }
    }
  }

  lemma {:induction false} WarnedOne(fs: FileSystem, file: Path, w: Warning)
    ensures WarnedWithin(fs, [file], w) <==> WarnedFrom(fs, file, 0, w)
  {
    if n :| WarnsAt(fs, file, n, w) {
      assert file in [file];
    }
  }

  /** Trying roots warns about exactly the unreadable ones that were not seen before. */
  lemma {:induction false} RootsWarn(fs: FileSystem, roots: seq<Path>, seen: set<Path>, w: Warning)
    ensures w in LoadRoots(fs, roots, seen).warnings <==>
              w.UnreadableRoot? && w.file in roots && w.file !in fs.files && w.file !in seen
  {
    if roots != [] {
      var root := roots[0];
      assert w.UnreadableRoot? ==> (w.file in roots <==> w.file == root || w.file in roots[1..]);
      if root in seen {
        RootsWarn(fs, roots[1..], seen, w);
      } else if root !in fs.files {
        RootsWarn(fs, roots[1..], seen + {root}, w);
      } else {
        var body := ExpandFrom(fs, root, 0, seen + {root});
        ExpandedSwept(fs, root, 0, seen + {root});
        ExpandFromVisitsOnce(fs, root, 0, seen + {root});
        RootsWarn(fs, roots[1..], body.seen, w);
      }
    }
  }

  /** What a path is warned about: not being there, or a directory entry that cannot be visited, or standing
      for a file that cannot be read. */
  ghost predicate WarnsOf(fs: FileSystem, path: Path, w: Warning) {
    match w
    case UnavailablePath(p) =>
      if path in fs.directories then exists e <- fs.directories[path] :: e.Failed? && e.path == p
      else p == path && path !in fs.files && path !in fs.unreadable
    case UnreadableRoot(file) => StandsFor(fs, path, file) && file !in fs.files
    case _ => false
  }

  lemma {:induction false} FailuresMembers(entries: seq<DirEntry>, w: Warning)
    ensures w in WalkFailures(entries) <==> w.UnavailablePath? && exists e <- entries :: e.Failed? && e.path == w.path
  {
    var failed, warnings := Filter(HasFailed, entries), WalkFailures(entries);
    FilterMembers(HasFailed, entries);
    if w in warnings {
      var i :| 0 <= i < |warnings| && warnings[i] == w;
      assert failed[i] in failed;
    }
    if w.UnavailablePath? {
      if e :| e in entries && e.Failed? && e.path == w.path {
        var i :| 0 <= i < |failed| && failed[i] == e;
        assert warnings[i] == w;
      }
    }
  }

  lemma {:induction false} PathWarns(fs: FileSystem, path: Path, seen: set<Path>, w: Warning)
    ensures w in WarningsAt(fs, path, seen) <==> WarnsOf(fs, path, w) && !(w.UnreadableRoot? && w.file in seen)
  {
    RootsWarn(fs, FilesAt(fs, path), seen, w);
    if w.UnreadableRoot? {
      FilesAtMembers(fs, path, w.file);
    }
    if path in fs.directories {
      FailuresMembers(fs.directories[path], w);
    }
  }

  /** A load by paths warns about exactly that, for all its paths. */
  lemma {:induction false} PathsWarnExactly(fs: FileSystem, paths: seq<Path>, w: Warning)
    ensures w in PathWarnings(fs, paths, {}) <==> exists p <- paths :: WarnsOf(fs, p, w)
  {
    if paths != [] {
      var before, last := paths[..|paths| - 1], paths[|paths| - 1];
      var seen := LoadRoots(fs, Tried(fs, before), {}).seen;
      assert paths == before + [last];
      PathsWarnExactly(fs, before, w);
      PathWarns(fs, last, seen, w);
      if w.UnreadableRoot? && w.file in seen && w.file !in fs.files {
        LoadVisitsOnce(fs, Tried(fs, before), {});
        TriedMembers(fs, before, w.file);
        var p :| p in before && StandsFor(fs, p, w.file);
        assert WarnsOf(fs, p, w);
      }
    }
  }

  // ----- the order of a whole load

  /** A directory tries its dictionary files in ascending order, each as often as the walk meets it. */
  lemma {:induction false} FilesAscend(fs: FileSystem, path: Path)
    requires path in fs.directories
    ensures multiset(FilesAt(fs, path)) == multiset(DictionaryFiles(fs.directories[path]))
    ensures forall i, j :: 0 <= i < j < |FilesAt(fs, path)| ==> !Less(FilesAt(fs, path)[j], FilesAt(fs, path)[i])
  {
    TextOrder();
    StableSortFacts(NotAfterText, DictionaryFiles(fs.directories[path]));
    assert forall a, b :: NotAfterText(a, b) ==> !Less(b, a);
  }

  /** Paths are tried in the order given. */
  lemma {:induction false} TriedInOrder(fs: FileSystem, a: seq<Path>, b: seq<Path>)
    ensures Tried(fs, a + b) == Tried(fs, a) + Tried(fs, b)
    decreases |b|
  {
    if b == [] {
      assert a + b == a;
      assert Tried(fs, a) + [] == Tried(fs, a);
    } else {
      var init, last := b[..|b| - 1], b[|b| - 1];
      var front := a + init;
      assert a + b == front + [last] && b == init + [last];
      TriedInOrder(fs, a, init);
      TriedSnoc(fs, front, last);
      TriedSnoc(fs, init, last);
      AddAssociative(Tried(fs, a), Tried(fs, init), FilesAt(fs, last));
    }
  }

  lemma {:induction false} AddAssociative(x: seq<Path>, y: seq<Path>, z: seq<Path>)
    ensures x + (y + z) == (x + y) + z
  {
  }

  lemma {:induction false} TriedSnoc(fs: FileSystem, paths: seq<Path>, path: Path)
    ensures Tried(fs, paths + [path]) == Tried(fs, paths) + FilesAt(fs, path)
  {
    assert (paths + [path])[..|paths|] == paths;
  }

  /** A root that no earlier root reaches comes out after everything of the earlier roots and before the
      rest, as what expanding it gives when exactly the files of the earlier roots count as seen. */
  lemma {:induction false} RootsInOrder(fs: FileSystem, a: seq<Path>, root: Path, b: seq<Path>)
    requires root in fs.files && root !in LoadRoots(fs, a, {}).seen
    ensures var before, all := LoadRoots(fs, a, {}), LoadRoots(fs, a + [root] + b, {});
            var body := ExpandFrom(fs, root, 0, before.seen + {root});
            && all.sources == before.sources + [Source(root, body.pieces, body.warnings)]
                 + LoadRoots(fs, b, body.seen).sources
            && all.visited == before.visited + [root] + body.visited + LoadRoots(fs, b, body.seen).visited
  {
    var before := LoadRoots(fs, a, {});
    assert a + [root] + b == a + ([root] + b);
    LoadSplit(fs, a, [root] + b, {});
    RootFirst(fs, root, b, before.seen);
  }

  lemma {:induction false} RootFirst(fs: FileSystem, root: Path, b: seq<Path>, seen: set<Path>)
    requires root in fs.files && root !in seen
    ensures var body := ExpandFrom(fs, root, 0, seen + {root});
            var r, rest := LoadRoots(fs, [root] + b, seen), LoadRoots(fs, b, body.seen);
            && r.sources == [Source(root, body.pieces, body.warnings)] + rest.sources
            && r.visited == [root] + body.visited + rest.visited
  {
    assert ([root] + b)[0] == root && ([root] + b)[1..] == b;
  }

  /** The sources, the expanded files and the seen set of a load. */
  function Results(r: Loaded): (seq<Source>, seq<Path>, set<Path>) {
    (r.sources, r.visited, r.seen)
  }

  function Chained(x: (seq<Source>, seq<Path>, set<Path>), y: (seq<Source>, seq<Path>, set<Path>))
    : (seq<Source>, seq<Path>, set<Path>)
  {
    (x.0 + y.0, x.1 + y.1, y.2)
  }

  lemma {:induction false} LoadNext(fs: FileSystem, roots: seq<Path>, seen: set<Path>)
    requires roots != []
    ensures var first := LoadRoots(fs, [roots[0]], seen);
            Results(LoadRoots(fs, roots, seen)) == Chained(Results(first),
                                                           Results(LoadRoots(fs, roots[1..], first.seen)))
  {
    LoadRootsStep(fs, roots, seen);
  }

  lemma {:induction false} LoadSplit(fs: FileSystem, a: seq<Path>, b: seq<Path>, seen: set<Path>)
    ensures var first := LoadRoots(fs, a, seen);
            Results(LoadRoots(fs, a + b, seen)) == Chained(Results(first), Results(LoadRoots(fs, b, first.seen)))
    decreases |a|
  {
    if a == [] {
      assert a + b == b;
      var rest := Results(LoadRoots(fs, b, seen));
      assert [] + rest.0 == rest.0 && [] + rest.1 == rest.1;
    } else {
      assert (a + b)[0] == a[0] && (a + b)[1..] == a[1..] + b;
      var one := LoadRoots(fs, [a[0]], seen);
      LoadNext(fs, a, seen);
      LoadNext(fs, a + b, seen);
      LoadSplit(fs, a[1..], b, one.seen);
      var two := LoadRoots(fs, a[1..], one.seen);
      ChainedAssociative(Results(one), Results(two), Results(LoadRoots(fs, b, two.seen)));
    }
  }

  lemma {:induction false} ChainedAssociative(x: (seq<Source>, seq<Path>, set<Path>),
                                              y: (seq<Source>, seq<Path>, set<Path>),
                                              z: (seq<Source>, seq<Path>, set<Path>))
    ensures Chained(x, Chained(y, z)) == Chained(Chained(x, y), z)
  {
    assert x.0 + (y.0 + z.0) == (x.0 + y.0) + z.0 && x.1 + (y.1 + z.1) == (x.1 + y.1) + z.1;
  }
}

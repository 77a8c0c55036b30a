/** Semantic sets kept as comma-separated text (configs/attribute_registry.go). The merge is an
    ordered-set union carried out by splitting and joining text; the laws below say that the text
    form behaves as that union. */
module SemanticSets {
  import opened Text
  import opened Sequences

  /** One element of a semantic list: non-empty, trimmed and free of commas. */
  predicate IsToken(t: string) {
    t != "" && CleanEnds(IsSpace, t) && ',' !in t
  }

  function TrimmedNonBlank(parts: seq<string>): seq<string> {
    if parts == [] then []
    else (if Blank(parts[0]) then [] else [Trim(parts[0])]) + TrimmedNonBlank(parts[1..])
  }

  /** The list a text stands for. */
  function Tokens(value: string): seq<string> {
    TrimmedNonBlank(Split(value, ','))
  }

  /** The set a text stands for, ignoring case. */
  function SemanticKeys(value: string): set<string> {
    Keys(Lower, Tokens(value))
  }

  /** `firstRegistrySemantic`. */
  function FirstOf(parts: seq<string>): string {
    if parts == [] then "" else if Trim(parts[0]) != "" then Trim(parts[0]) else FirstOf(parts[1..])
  }

  function First(value: string): string {
    FirstOf(Split(value, ','))
  }

  /** `registrySemanticContains`: blank segments count as elements here. */
  predicate SemanticContains(value: string, target: string) {
    exists part <- Split(value, ',') :: Lower(Trim(part)) == Lower(Trim(target))
  }

  /** The value of `mergeRegistrySemantics`. */
  function Merge(current: string, addition: string): string {
    Join(Distinct(Lower, {}, Tokens(current + "," + addition)), ',')
  }

  /** `mergeRegistrySemantics` as it runs: one pass over the split text with a set of folded keys. */
  method MergeRegistrySemantics(current: string, addition: string) returns (merged: string)
    ensures merged == Merge(current, addition)
  {
    var parts := Split(current + "," + addition, ',');
    var out: seq<string> := [];
    var seen: set<string> := {};
    assert parts[0..] == parts;
    for i := 0 to |parts|
      invariant out + Distinct(Lower, seen, TrimmedNonBlank(parts[i..]))
             == Distinct(Lower, {}, TrimmedNonBlank(parts))
    {
      assert parts[i..] == [parts[i]] + parts[i + 1..];
      ghost var rest := TrimmedNonBlank(parts[i + 1..]);
      assert TrimmedNonBlank(parts[i..]) == (if Blank(parts[i]) then [] else [Trim(parts[i])]) + rest;
      var value := Trim(parts[i]);
      if value == "" {
        assert [] + rest == rest;
      } else {
        var key := Lower(value);
        DistinctCons(Lower, seen, value, rest);
        if key !in seen {
          assert out + ([value] + Distinct(Lower, seen + {key}, rest))
              == (out + [value]) + Distinct(Lower, seen + {key}, rest);
          seen := seen + {key};
          out := out + [value];
        }
      }
    }
    assert parts[|parts|..] == [] && out + [] == out;
    merged := Join(out, ',');
  }

  // ----- text and list agree

  lemma {:induction false} TrimmedNonBlankConcat(a: seq<string>, b: seq<string>)
    ensures TrimmedNonBlank(a + b) == TrimmedNonBlank(a) + TrimmedNonBlank(b)
  {
    if a == [] {
      assert a + b == b;
    } else {
      assert (a + b)[1..] == a[1..] + b;
      TrimmedNonBlankConcat(a[1..], b);
    }
  }

  lemma {:induction false} TokensConcat(a: string, b: string)
    ensures Tokens(a + "," + b) == Tokens(a) + Tokens(b)
  {
    SplitConcat(a, b, ',');
    TrimmedNonBlankConcat(Split(a, ','), Split(b, ','));
  }

  lemma {:induction false} TrimIsToken(part: string)
    requires ',' !in part && !Blank(part)
    ensures IsToken(Trim(part))
  {
    var lo, hi := StripFacts(IsSpace, part);
    assert forall c <- part[lo..hi] :: c in part;
  }

  lemma {:induction false} TrimmedAreTokens(parts: seq<string>)
    requires forall part <- parts :: ',' !in part
    ensures forall t <- TrimmedNonBlank(parts) :: IsToken(t)
  {
    if parts != [] {
      TrimmedAreTokens(parts[1..]);
      if !Blank(parts[0]) {
        TrimIsToken(parts[0]);
      }
    }
  }

  lemma {:induction false} TokensAreTokens(value: string)
    ensures forall t <- Tokens(value) :: IsToken(t)
  {
    SplitPieces(value, ',');
    TrimmedAreTokens(Split(value, ','));
  }

  lemma {:induction false} TrimmedFixed(ts: seq<string>)
    requires forall t <- ts :: IsToken(t)
    ensures TrimmedNonBlank(ts) == ts
  {
    if ts != [] {
      assert ts[0] in ts;
      StripFixed(IsSpace, ts[0]);
      TrimmedFixed(ts[1..]);
    }
  }

  /** The round trip: joining a list of tokens and reading it back gives the list. */
  lemma {:induction false} TokensJoin(ts: seq<string>)
    requires forall t <- ts :: IsToken(t)
    ensures Tokens(Join(ts, ',')) == ts
  {
    if ts == [] {
      assert Split("", ',') == [""];
    } else {
      SplitJoin(ts, ',');
      TrimmedFixed(ts);
    }
  }

  /** Merging text is first-wins union of the lists. */
  lemma {:induction false} MergeTokens(a: string, b: string)
    ensures Tokens(Merge(a, b)) == Distinct(Lower, {}, Tokens(a) + Tokens(b))
    ensures Merge(a, b) == Join(Distinct(Lower, {}, Tokens(a) + Tokens(b)), ',')
    ensures SemanticKeys(Merge(a, b)) == SemanticKeys(a) + SemanticKeys(b)
  {
    TokensConcat(a, b);
    TokensAreTokens(a);
    TokensAreTokens(b);
    var ts := Tokens(a) + Tokens(b);
    DistinctKeys(Lower, {}, ts);
    TokensJoin(Distinct(Lower, {}, ts));
    KeysConcat(Lower, Tokens(a), Tokens(b));
  }

  // ----- laws of the merge

  lemma {:induction false} DistinctAbsorbsLeft(a: seq<string>, b: seq<string>)
    ensures Distinct(Lower, {}, Distinct(Lower, {}, a) + b) == Distinct(Lower, {}, a + b)
  {
    var d := Distinct(Lower, {}, a);
    DistinctConcat(Lower, {}, d, b);
    DistinctConcat(Lower, {}, a, b);
    DistinctDistinct(Lower, {}, {}, a);
    DistinctKeys(Lower, {}, a);
    assert {} + Keys(Lower, d) == {} + Keys(Lower, a);
  }

  lemma {:induction false} DistinctAbsorbsRight(a: seq<string>, b: seq<string>)
    ensures Distinct(Lower, {}, a + Distinct(Lower, {}, b)) == Distinct(Lower, {}, a + b)
  {
    DistinctConcat(Lower, {}, a, Distinct(Lower, {}, b));
    DistinctConcat(Lower, {}, a, b);
    DistinctDistinct(Lower, {} + Keys(Lower, a), {}, b);
  }

  lemma {:induction false} MergeAssociative(a: string, b: string, c: string)
    ensures Merge(Merge(a, b), c) == Merge(a, Merge(b, c))
  {
    var ta, tb, tc := Tokens(a), Tokens(b), Tokens(c);
    calc {
      Merge(Merge(a, b), c);
      { MergeTokens(a, b); MergeTokens(Merge(a, b), c); }
      Join(Distinct(Lower, {}, Distinct(Lower, {}, ta + tb) + tc), ',');
      { DistinctAbsorbsLeft(ta + tb, tc); }
      Join(Distinct(Lower, {}, ta + tb + tc), ',');
      { assert ta + tb + tc == ta + (tb + tc); }
      Join(Distinct(Lower, {}, ta + (tb + tc)), ',');
      { DistinctAbsorbsRight(ta, tb + tc); }
      Join(Distinct(Lower, {}, ta + Distinct(Lower, {}, tb + tc)), ',');
      { MergeTokens(b, c); MergeTokens(a, Merge(b, c)); }
      Merge(a, Merge(b, c));
    }
  }

  /** Adding what is already there changes nothing: repeated profile passes are harmless. */
  lemma {:induction false} MergeAbsorbs(a: string, b: string)
    requires SemanticKeys(b) <= SemanticKeys(a)
    ensures Merge(a, b) == Join(Distinct(Lower, {}, Tokens(a)), ',')
  {
    MergeTokens(a, b);
    DistinctConcat(Lower, {}, Tokens(a), Tokens(b));
    DistinctNothing(Lower, {} + Keys(Lower, Tokens(a)), Tokens(b));
    var d := Distinct(Lower, {}, Tokens(a));
    assert d + [] == d;
  }

  /** Self-merging is a fixed point exactly on the texts that a merge can produce. */
  lemma {:induction false} MergeIdempotent(a: string)
    ensures Merge(a, a) == a <==> exists x, y :: a == Merge(x, y)
  {
    if x, y :| a == Merge(x, y) {
      MergeTokens(x, y);
      MergeAbsorbs(a, a);
      DistinctKeys(Lower, {}, Tokens(x) + Tokens(y));
      DistinctFixed(Lower, {}, Tokens(a));
    }
  }

  lemma {:induction false} FirstOfTrimmed(parts: seq<string>)
    ensures FirstOf(parts) == if TrimmedNonBlank(parts) == [] then "" else TrimmedNonBlank(parts)[0]
  {
    if parts != [] {
      FirstOfTrimmed(parts[1..]);
    }
  }

  lemma {:induction false} FirstToken(value: string)
    ensures First(value) == if Tokens(value) == [] then "" else Tokens(value)[0]
    ensures First(value) == "" <==> Tokens(value) == []
  {
    FirstOfTrimmed(Split(value, ','));
    TokensAreTokens(value);
    assert Tokens(value) != [] ==> Tokens(value)[0] in Tokens(value);
  }

  /** The primary semantic never changes once present. */
  lemma {:induction false} MergeKeepsFirst(a: string, b: string)
    ensures First(Merge(a, b)) == if First(a) != "" then First(a) else First(b)
  {
    FirstToken(a);
    FirstToken(b);
    FirstToken(Merge(a, b));
    MergeTokens(a, b);
    var ts := Tokens(a) + Tokens(b);
    if ts == [] {
      assert Distinct(Lower, {}, ts) == [];
    } else {
      assert Distinct(Lower, {}, ts)[0] == ts[0];
    }
  }

  // ----- membership

  lemma {:induction false} TrimmedMembers(parts: seq<string>, t: string)
    requires t != ""
    ensures t in TrimmedNonBlank(parts) <==> exists part <- parts :: Trim(part) == t
  {
    if parts != [] {
      TrimmedMembers(parts[1..], t);
      assert parts == [parts[0]] + parts[1..];
    }
  }

  /** For a non-blank target the membership test reads the set the text stands for. */
  lemma {:induction false} ContainsIsMembership(value: string, target: string)
    requires !Blank(target)
    ensures SemanticContains(value, target) <==> Lower(Trim(target)) in SemanticKeys(value)
  {
    var parts := Split(value, ',');
    var key := Lower(Trim(target));
    if SemanticContains(value, target) {
      var part :| part in parts && Lower(Trim(part)) == key;
      TrimmedMembers(parts, Trim(part));
      assert Trim(part) in Tokens(value);
    }
    if key in SemanticKeys(value) {
      var t :| t in Tokens(value) && Lower(t) == key;
      TrimmedMembers(parts, t);
      var part :| part in parts && Trim(part) == t;
    }
  }

  lemma {:induction false} SingleToken(t: string)
    requires IsToken(t)
    ensures Tokens(t) == [t] && First(t) == t && SemanticKeys(t) == {Lower(t)}
  {
    SplitPlain(t, ',');
    TrimmedFixed([t]);
    FirstToken(t);
    assert [t][0] == t;
  }

  /** Membership after a merge is membership in either part, for every non-blank target. */
  lemma {:induction false} ContainsMerge(a: string, b: string, target: string)
    requires !Blank(target)
    ensures SemanticContains(Merge(a, b), target) <==> SemanticContains(a, target) || SemanticContains(b, target)
  {
    ContainsIsMembership(a, target);
    ContainsIsMembership(b, target);
    ContainsIsMembership(Merge(a, b), target);
    MergeTokens(a, b);
  }

  lemma {:induction false} BlankFreeCount(parts: seq<string>)
    ensures TrimmedNonBlank(parts) == [] <==> forall part <- parts :: Blank(part)
  {
    if parts != [] {
      BlankFreeCount(parts[1..]);
      assert parts == [parts[0]] + parts[1..];
    }
  }

  lemma {:induction false} ContainsBlank(value: string)
    ensures SemanticContains(value, "") <==> exists part <- Split(value, ',') :: Blank(part)
  {
    assert Trim("") == "";
    if part :| part in Split(value, ',') && Blank(part) {
      assert Lower(Trim(part)) == Lower(Trim(""));
    }
  }

  lemma {:induction false} JoinedHasNoBlank(ts: seq<string>)
    requires forall t <- ts :: IsToken(t)
    ensures SemanticContains(Join(ts, ','), "") <==> ts == []
  {
    ContainsBlank(Join(ts, ','));
    if ts == [] {
      assert Split("", ',') == [""];
      assert "" in Split("", ',') && Blank("");
    } else {
      SplitJoin(ts, ',');
      forall t | t in ts ensures !Blank(t) {
        StripFixed(IsSpace, t);
      }
    }
  }

  /** A blank target is the exception: a merge drops blank segments, so it stops "containing" the
      blank exactly when it has a real element. */
  lemma {:induction false} ContainsBlankAfterMerge(a: string, b: string)
    ensures SemanticContains(Merge(a, b), "") <==> SemanticKeys(Merge(a, b)) == {}
  {
    MergeTokens(a, b);
    TokensAreTokens(Merge(a, b));
    JoinedHasNoBlank(Tokens(Merge(a, b)));
    EmptyKeys(Merge(a, b));
  }

  ghost predicate Distributes(a: string, b: string, target: string) {
    SemanticContains(Merge(a, b), target) <==> SemanticContains(a, target) || SemanticContains(b, target)
  }

  /** The membership law in full: it fails for a target exactly when the target is blank, some segment
      of either text is blank and some segment of either text is not. */
  lemma {:induction false} ContainsMergeLaw(a: string, b: string, target: string)
    ensures !Distributes(a, b, target)
       <==> && Blank(target) && (First(a) != "" || First(b) != "")
            && exists part <- Split(a, ',') + Split(b, ',') :: Blank(part)
  {
    if !Blank(target) {
      ContainsMerge(a, b, target);
    } else {
      assert forall v :: SemanticContains(v, target) == SemanticContains(v, "") by {
        assert Trim(target) == Trim("");
      }
      ContainsBlankAfterMerge(a, b);
      MergeTokens(a, b);
      FirstToken(Merge(a, b));
      EmptyKeys(Merge(a, b));
      EmptyKeys(a);
      MergeKeepsFirst(a, b);
      ContainsBlank(a);
      ContainsBlank(b);
      if SemanticKeys(Merge(a, b)) == {} {
        BlankFreeCount(Split(a, ','));
        assert Split(a, ',')[0] in Split(a, ',');
      }
    }
  }

  /** The concrete failure: `,x` has a blank segment, which merging drops. */
  lemma {:induction false} BlankSegmentIsLost()
    ensures SemanticContains(",x", "") && Merge(",x", "") == "x" && !SemanticContains(Merge(",x", ""), "")
  {
    assert Split(",x", ',') == ["", "x"] by {
      assert ",x"[1..] == "x";
      SplitPlain("x", ',');
    }
    assert Split("", ',') == [""] && Trim("") == "";
    assert TrimmedNonBlank([""]) == [];
    SingleToken("x");
    SplitPlain("x", ',');
    TrimmedFixed(["x"]);
    assert ["", "x"][1..] == ["x"];
    assert Tokens(",x") == ["x"];
    MergeTokens(",x", "");
    assert ["x"] + [] == ["x"];
    DistinctCons(Lower, {}, "x", []);
    assert Join(["x"], ',') == "x";
    assert "" in ["", "x"];
    ContainsBlank(",x");
    ContainsBlank("x");
    StripFixed(IsSpace, "x");
  }

  lemma {:induction false} EmptyKeys(value: string)
    ensures SemanticKeys(value) == {} <==> Tokens(value) == []
  {
    if Tokens(value) != [] {
      assert Tokens(value)[0] in Tokens(value);
      assert Lower(Tokens(value)[0]) in SemanticKeys(value);
    }
  }
}

/** The ordered, keyed merge that both levels of a catalog use: an element with a new key is appended,
    one with a known key is combined into the element that has it, and one without a key is dropped.
    Merging a merged list is merging its parts, as soon as the element rules satisfy a few laws. */
module KeyedMerge {
  import opened Sequences


  datatype Rules<!T> = Rules(key: T -> string, insert: T -> T, combine: (T, T) -> T)

  function IndexOf<T>(key: T -> string, xs: seq<T>, k: string): (i: nat)
    ensures i <= |xs|
    ensures i < |xs| ==> key(xs[i]) == k
    ensures forall j :: 0 <= j < i ==> key(xs[j]) != k
  {
    if xs == [] || key(xs[0]) == k then 0 else 1 + IndexOf(key, xs[1..], k)
  }

  function Step<T>(r: Rules<T>, acc: seq<T>, x: T): seq<T> {
    if r.key(x) == "" then acc
    else
      var i := IndexOf(r.key, acc, r.key(x));
      if i < |acc| then acc[i := r.combine(acc[i], x)] else acc + [r.insert(x)]
  }

  function Fold<T>(r: Rules<T>, acc: seq<T>, xs: seq<T>): seq<T>
    decreases |xs|
  {
    if xs == [] then acc else Fold(r, Step(r, acc, xs[0]), xs[1..])
  }

  /** Elements in finished form, with distinct non-empty keys. */
  ghost predicate Finished<T>(r: Rules<T>, normal: T -> bool, xs: seq<T>) {
    && (forall i :: 0 <= i < |xs| ==> normal(xs[i]) && r.key(xs[i]) != "")
    && (forall i, j :: 0 <= i < j < |xs| ==> r.key(xs[i]) != r.key(xs[j]))
  }

  ghost predicate Each<T>(clean: T -> bool, xs: seq<T>) {
    forall i :: 0 <= i < |xs| ==> clean(xs[i])
  }

  /** The laws: `clean` says which inputs are covered, `normal` what a finished element looks like. */
  ghost predicate Lawful<T(!new)>(r: Rules<T>, clean: T -> bool, normal: T -> bool) {
    && (forall x :: r.key(r.insert(x)) == r.key(x))
    && (forall x, y :: r.key(r.combine(x, y)) == r.key(x))
    && (forall x :: clean(x) ==> normal(r.insert(x)))
    && (forall x :: normal(x) ==> clean(x) && r.insert(x) == x)
    && (forall x, v :: normal(x) && clean(v) && r.key(x) == r.key(v) ==> normal(r.combine(x, v)))
    && (forall z, v :: clean(v) ==> r.combine(z, r.insert(v)) == r.combine(z, v))
    && (forall z, x, v :: normal(x) && clean(v) ==> r.combine(r.combine(z, x), v) == r.combine(z, r.combine(x, v)))
  }

  // ----- folding

  lemma {:induction false} FoldConcat<T>(r: Rules<T>, acc: seq<T>, a: seq<T>, b: seq<T>)
    ensures Fold(r, acc, a + b) == Fold(r, Fold(r, acc, a), b)
    decreases |a|
  {
    if a == [] {
      assert a + b == b;
    } else {
      assert (a + b)[0] == a[0] && (a + b)[1..] == a[1..] + b;
      FoldConcat(r, Step(r, acc, a[0]), a[1..], b);
    }
  }

  lemma {:induction false} FoldOne<T>(r: Rules<T>, acc: seq<T>, x: T)
    ensures Fold(r, acc, [x]) == Step(r, acc, x)
  {
    assert [x][1..] == [];
    assert Fold(r, Step(r, acc, x), []) == Step(r, acc, x);
  }

  lemma {:induction false} FoldSnoc<T>(r: Rules<T>, acc: seq<T>, xs: seq<T>, x: T)
    ensures Fold(r, acc, xs + [x]) == Step(r, Fold(r, acc, xs), x)
  {
    FoldConcat(r, acc, xs, [x]);
    FoldOne(r, Fold(r, acc, xs), x);
  }

  lemma {:induction false} IndexUnique<T>(key: T -> string, xs: seq<T>, k: string, i: nat)
    requires i <= |xs| && (i < |xs| ==> key(xs[i]) == k) && forall j :: 0 <= j < i ==> key(xs[j]) != k
    ensures IndexOf(key, xs, k) == i
  {
  }

  lemma {:induction false} StepFinished<T(!new)>(r: Rules<T>, clean: T -> bool, normal: T -> bool, acc: seq<T>, x: T)
    requires Lawful(r, clean, normal) && Finished(r, normal, acc) && clean(x)
    ensures Finished(r, normal, Step(r, acc, x))
  {
    if r.key(x) != "" {
      var i := IndexOf(r.key, acc, r.key(x));
      if i < |acc| {
        var after := acc[i := r.combine(acc[i], x)];
        assert forall j :: 0 <= j < |after| ==> r.key(after[j]) == r.key(acc[j]);
      } else {
        assert r.key(r.insert(x)) == r.key(x);
      }
    }
  }

  lemma {:induction false} FoldFinished<T(!new)>(r: Rules<T>, clean: T -> bool, normal: T -> bool, acc: seq<T>,
                                                 xs: seq<T>)
    requires Lawful(r, clean, normal) && Finished(r, normal, acc) && Each(clean, xs)
    ensures Finished(r, normal, Fold(r, acc, xs))
    decreases |xs|
  {
    if xs != [] {
      StepFinished(r, clean, normal, acc, xs[0]);
      FoldFinished(r, clean, normal, Step(r, acc, xs[0]), xs[1..]);
    }
  }

  // ----- moving a step

  /** Two steps for one key are one step with the combined element. */
  lemma {:induction false} StepStep<T(!new)>(r: Rules<T>, clean: T -> bool, normal: T -> bool, acc: seq<T>, x: T, v: T)
    requires Lawful(r, clean, normal) && normal(x) && clean(v) && r.key(x) == r.key(v) != ""
    ensures Step(r, Step(r, acc, x), v) == Step(r, acc, r.combine(x, v))
  {
    var k := r.key(x);
    var i := IndexOf(r.key, acc, k);
    var mid := Step(r, acc, x);
    if i < |acc| {
      IndexUnique(r.key, mid, k, i);
    } else {
      assert mid == acc + [x];
      IndexUnique(r.key, mid, k, i);
    }
  }

  /** A step into a known key commutes with a step for another key. */
  lemma {:induction false} StepCommutes<T(!new)>(r: Rules<T>, clean: T -> bool, normal: T -> bool, acc: seq<T>, x: T,
                                                 v: T)
    requires Lawful(r, clean, normal) && r.key(x) != r.key(v)
    requires r.key(v) != "" && IndexOf(r.key, acc, r.key(v)) < |acc|
    ensures Step(r, Step(r, acc, x), v) == Step(r, Step(r, acc, v), x)
    ensures IndexOf(r.key, Step(r, acc, x), r.key(v)) < |Step(r, acc, x)|
  {
    if r.key(x) != "" {
      var i, j := IndexOf(r.key, acc, r.key(v)), IndexOf(r.key, acc, r.key(x));
      var afterX, afterV := Step(r, acc, x), Step(r, acc, v);
      assert forall m :: 0 <= m < |acc| ==> r.key(afterX[m]) == r.key(acc[m]) && r.key(afterV[m]) == r.key(acc[m]);
      IndexUnique(r.key, afterX, r.key(v), i);
      IndexUnique(r.key, afterV, r.key(x), j);
    }
  }

  lemma {:induction false} StepPastFold<T(!new)>(r: Rules<T>, clean: T -> bool, normal: T -> bool, acc: seq<T>,
                                                 xs: seq<T>, v: T)
    requires Lawful(r, clean, normal) && r.key(v) != "" && IndexOf(r.key, acc, r.key(v)) < |acc|
    requires forall i :: 0 <= i < |xs| ==> r.key(xs[i]) != r.key(v)
    ensures Step(r, Fold(r, acc, xs), v) == Fold(r, Step(r, acc, v), xs)
    decreases |xs|
  {
    if xs != [] {
      StepCommutes(r, clean, normal, acc, xs[0], v);
      StepPastFold(r, clean, normal, Step(r, acc, xs[0]), xs[1..], v);
    }
  }

  lemma {:induction false} StepHasKey<T(!new)>(r: Rules<T>, clean: T -> bool, normal: T -> bool, acc: seq<T>, x: T)
    requires Lawful(r, clean, normal) && r.key(x) != ""
    ensures IndexOf(r.key, Step(r, acc, x), r.key(x)) < |Step(r, acc, x)|
  {
    var i := IndexOf(r.key, acc, r.key(x));
    IndexUnique(r.key, Step(r, acc, x), r.key(x), i);
  }

  lemma {:induction false} FoldThrough<T(!new)>(r: Rules<T>, acc: seq<T>, before: seq<T>, x: T, after: seq<T>)
    ensures Fold(r, acc, before + ([x] + after)) == Fold(r, Step(r, Fold(r, acc, before), x), after)
  {
    FoldConcat(r, acc, before, [x] + after);
    FoldConcat(r, Fold(r, acc, before), [x], after);
    FoldOne(r, Fold(r, acc, before), x);
  }

  lemma {:induction false} StepInserted<T(!new)>(r: Rules<T>, clean: T -> bool, normal: T -> bool, acc: seq<T>, v: T)
    requires Lawful(r, clean, normal) && clean(v)
    ensures Step(r, acc, r.insert(v)) == Step(r, acc, v)
  {
    assert r.insert(r.insert(v)) == r.insert(v);
  }

  lemma {:induction false} UpdateSplit<T>(xs: seq<T>, i: nat, y: T)
    requires i < |xs|
    ensures xs == xs[..i] + ([xs[i]] + xs[i + 1..]) && xs[i := y] == xs[..i] + ([y] + xs[i + 1..])
  {
  }

  /** Where a step that finds its key changes a list. */
  lemma {:induction false} UpdateInPlace<T(!new)>(r: Rules<T>, xs: seq<T>, v: T, i: nat)
    requires r.key(v) != "" && i == IndexOf(r.key, xs, r.key(v)) < |xs|
    ensures xs == xs[..i] + ([xs[i]] + xs[i + 1..])
    ensures Step(r, xs, v) == xs[..i] + ([r.combine(xs[i], v)] + xs[i + 1..])
  {
    UpdateSplit(xs, i, r.combine(xs[i], v));
  }

  lemma {:induction false} LaterLack<T(!new)>(r: Rules<T>, normal: T -> bool, xs: seq<T>, i: nat)
    requires Finished(r, normal, xs) && i < |xs|
    ensures Lacks(r, xs[i + 1..], r.key(xs[i]))
  {
    var after := xs[i + 1..];
    forall k | 0 <= k < |after| ensures r.key(after[k]) != r.key(xs[i]) {
      assert after[k] == xs[i + 1 + k];
    }
  }

  ghost predicate Lacks<T>(r: Rules<T>, xs: seq<T>, key: string) {
    forall i :: 0 <= i < |xs| ==> r.key(xs[i]) != key
  }

  /** Stepping inside the merged list or after it is the same. */
  lemma {:induction false} FoldOfStep<T(!new)>(r: Rules<T>, clean: T -> bool, normal: T -> bool, acc: seq<T>,
                                               xs: seq<T>, v: T)
    requires Lawful(r, clean, normal) && Finished(r, normal, xs) && clean(v)
    ensures Fold(r, acc, Step(r, xs, v)) == Step(r, Fold(r, acc, xs), v)
  {
    if r.key(v) != "" {
      var i := IndexOf(r.key, xs, r.key(v));
      if i == |xs| {
        assert Step(r, xs, v) == xs + [r.insert(v)];
        FoldSnoc(r, acc, xs, r.insert(v));
        StepInserted(r, clean, normal, Fold(r, acc, xs), v);
      } else {
        UpdateInPlace(r, xs, v, i);
        LaterLack(r, normal, xs, i);
        FoldOfUpdate(r, clean, normal, acc, xs[..i], xs[i], xs[i + 1..], v);
      }
    }
  }

  lemma {:induction false} FoldOfUpdate<T(!new)>(r: Rules<T>, clean: T -> bool, normal: T -> bool, acc: seq<T>,
                                                 before: seq<T>, x: T, after: seq<T>, v: T)
    requires Lawful(r, clean, normal) && normal(x) && clean(v) && r.key(x) == r.key(v) != ""
    requires Lacks(r, after, r.key(v))
    ensures Fold(r, acc, before + ([r.combine(x, v)] + after)) == Step(r, Fold(r, acc, before + ([x] + after)), v)
  {
    var base := Fold(r, acc, before);
    FoldThrough(r, acc, before, x, after);
    FoldThrough(r, acc, before, r.combine(x, v), after);
    StepHasKey(r, clean, normal, base, x);
    StepStep(r, clean, normal, base, x, v);
    StepPastFold(r, clean, normal, Step(r, base, x), after, v);
  }

  /** The flattening law: merging a merged list is merging its parts. */
  lemma {:induction false} FoldFold<T(!new)>(r: Rules<T>, clean: T -> bool, normal: T -> bool, acc: seq<T>, xs: seq<T>)
    requires Lawful(r, clean, normal) && Each(clean, xs)
    ensures Fold(r, acc, Fold(r, [], xs)) == Fold(r, acc, xs)
    decreases |xs|
  {
    if xs != [] {
      var init, last := xs[..|xs| - 1], xs[|xs| - 1];
      assert xs == init + [last];
      FoldFold(r, clean, normal, acc, init);
      FoldFinished(r, clean, normal, [], init);
      FoldSnoc(r, [], init, last);
      FoldSnoc(r, acc, init, last);
      FoldOfStep(r, clean, normal, acc, Fold(r, [], init), last);
    }
  }

  /** A finished list is its own merge. */
  lemma {:induction false} FoldIdentity<T(!new)>(r: Rules<T>, clean: T -> bool, normal: T -> bool, xs: seq<T>)
    requires Lawful(r, clean, normal) && Finished(r, normal, xs)
    ensures Fold(r, [], xs) == xs
    decreases |xs|
  {
    if xs != [] {
      var init, last := xs[..|xs| - 1], xs[|xs| - 1];
      assert xs == init + [last];
      FoldIdentity(r, clean, normal, init);
      FoldSnoc(r, [], init, last);
      IndexUnique(r.key, init, r.key(last), |init|);
    }
  }

  /** Merging the first `n` elements of a finished list into it combines each of them with itself. */
  lemma {:induction false} FoldSelf<T(!new)>(r: Rules<T>, normal: T -> bool, acc: seq<T>, n: nat)
    requires Finished(r, normal, acc) && KeepsKeys(r) && n <= |acc|
    ensures var merged := Fold(r, acc, acc[..n]);
            && |merged| == |acc|
            && forall i :: 0 <= i < |acc| ==> merged[i] == if i < n then r.combine(acc[i], acc[i]) else acc[i]
  {
    if n > 0 {
      assert acc[..n] == acc[..n - 1] + [acc[n - 1]];
      FoldSelf(r, normal, acc, n - 1);
      FoldSnoc(r, acc, acc[..n - 1], acc[n - 1]);
      var before := Fold(r, acc, acc[..n - 1]);
      forall i | 0 <= i < |acc| ensures r.key(before[i]) == r.key(acc[i]) {
        assert r.key(r.combine(acc[i], acc[i])) == r.key(acc[i]);
      }
      IndexUnique(r.key, before, r.key(acc[n - 1]), n - 1);
    }
  }

  /** Merging a finished list with itself changes nothing exactly when every element absorbs itself. */
  lemma {:induction false} FoldAbsorbs<T(!new)>(r: Rules<T>, normal: T -> bool, acc: seq<T>)
    requires Finished(r, normal, acc) && KeepsKeys(r)
    ensures Fold(r, acc, acc) == acc <==> forall i :: 0 <= i < |acc| ==> r.combine(acc[i], acc[i]) == acc[i]
  {
    FoldSelf(r, normal, acc, |acc|);
    assert acc[..|acc|] == acc;
  }

  // ----- what every merge guarantees, lawful or not

  ghost predicate KeepsKeys<T(!new)>(r: Rules<T>) {
    (forall x :: r.key(r.insert(x)) == r.key(x)) && (forall x, y :: r.key(r.combine(x, y)) == r.key(x))
  }

  lemma {:induction false} StepUnique<T(!new)>(r: Rules<T>, acc: seq<T>, x: T)
    requires KeepsKeys(r) && UniqueKeys(r.key, acc)
    ensures UniqueKeys(r.key, Step(r, acc, x))
  {
  }

  /** Merged elements have pairwise distinct keys. */
  lemma {:induction false} FoldUnique<T(!new)>(r: Rules<T>, acc: seq<T>, xs: seq<T>)
    requires KeepsKeys(r) && UniqueKeys(r.key, acc)
    ensures UniqueKeys(r.key, Fold(r, acc, xs))
    decreases |xs|
  {
    if xs != [] {
      StepUnique(r, acc, xs[0]);
      FoldUnique(r, Step(r, acc, xs[0]), xs[1..]);
    }
  }

  /** What inserting establishes and combining keeps, given `q` of what comes in, holds of every
      merged element. */
  lemma {:induction false} FoldEach<T(!new)>(r: Rules<T>, p: T -> bool, q: T -> bool, acc: seq<T>, xs: seq<T>)
    requires Each(p, acc) && Each(q, xs)
    requires (forall x :: q(x) ==> p(r.insert(x))) && forall x, y :: p(x) && q(y) ==> p(r.combine(x, y))
    ensures Each(p, Fold(r, acc, xs))
    decreases |xs|
  {
    if xs != [] {
      FoldEach(r, p, q, Step(r, acc, xs[0]), xs[1..]);
    }
  }
}

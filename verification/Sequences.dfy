/** Ordered-list algebra shared by the engine: first-wins de-duplication by key, filtering,
    and the stable sort behind `sort.SliceStable`. */
module Sequences {
  import opened Wrappers

  // ----- first-wins de-duplication

  function Keys<T(==), K>(key: T -> K, xs: seq<T>): set<K> {
    set x | x in xs :: key(x)
  }

  /** The elements of `xs`, in order, whose key is neither in `seen` nor the key of an earlier element. */
  function Distinct<T, K>(key: T -> K, seen: set<K>, xs: seq<T>): seq<T>
    decreases |xs|
  {
    if xs == [] then []
    else if key(xs[0]) in seen then Distinct(key, seen, xs[1..])
    else [xs[0]] + Distinct(key, seen + {key(xs[0])}, xs[1..])
  }

  ghost predicate UniqueKeys<T, K>(key: T -> K, xs: seq<T>) {
    forall i, j :: 0 <= i < j < |xs| ==> key(xs[i]) != key(xs[j])
  }

  ghost predicate NoRepeats<T>(xs: seq<T>) {
    forall i, j :: 0 <= i < j < |xs| ==> xs[i] != xs[j]
  }

  /** The key under which every element is its own. */
  function Itself<T>(x: T): T {
    x
  }

  lemma {:induction false} ItselfKeys<T>(xs: seq<T>, x: T)
    ensures x in Keys(Itself, xs) <==> x in xs
  {
    if x in xs {
      assert Itself(x) in Keys(Itself, xs);
    }
  }

  lemma {:induction false} DistinctCons<T, K>(key: T -> K, seen: set<K>, x: T, xs: seq<T>)
    ensures Distinct(key, seen, [x] + xs)
         == if key(x) in seen then Distinct(key, seen, xs) else [x] + Distinct(key, seen + {key(x)}, xs)
  {
    assert ([x] + xs)[1..] == xs;
  }

  lemma {:induction false} KeysConcat<T, K>(key: T -> K, a: seq<T>, b: seq<T>)
    ensures Keys(key, a + b) == Keys(key, a) + Keys(key, b)
  {
  }

  lemma {:induction false} DistinctConcat<T, K>(key: T -> K, seen: set<K>, a: seq<T>, b: seq<T>)
    ensures Distinct(key, seen, a + b) == Distinct(key, seen, a) + Distinct(key, seen + Keys(key, a), b)
    decreases |a|
  {
    if a == [] {
      assert a + b == b && seen + Keys(key, a) == seen;
    } else {
      assert (a + b)[1..] == a[1..] + b;
      assert a == [a[0]] + a[1..];
      KeysConcat(key, [a[0]], a[1..]);
      if key(a[0]) in seen {
        DistinctConcat(key, seen, a[1..], b);
        assert seen + Keys(key, a[1..]) == seen + Keys(key, a);
      } else {
        DistinctConcat(key, seen + {key(a[0])}, a[1..], b);
        assert seen + {key(a[0])} + Keys(key, a[1..]) == seen + Keys(key, a);
      }
    }
  }

  lemma {:induction false} DistinctKeys<T, K>(key: T -> K, seen: set<K>, xs: seq<T>)
    ensures Keys(key, Distinct(key, seen, xs)) == Keys(key, xs) - seen
    ensures UniqueKeys(key, Distinct(key, seen, xs))
    ensures forall x <- Distinct(key, seen, xs) :: x in xs && key(x) !in seen
    decreases |xs|
  {
    if xs != [] {
      assert xs == [xs[0]] + xs[1..];
      KeysConcat(key, [xs[0]], xs[1..]);
      if key(xs[0]) in seen {
        DistinctKeys(key, seen, xs[1..]);
      } else {
        var rest := Distinct(key, seen + {key(xs[0])}, xs[1..]);
        DistinctKeys(key, seen + {key(xs[0])}, xs[1..]);
        KeysConcat(key, [xs[0]], rest);
      }
    }
  }

  lemma {:induction false} DistinctFixed<T, K>(key: T -> K, seen: set<K>, xs: seq<T>)
    requires UniqueKeys(key, xs) && forall x <- xs :: key(x) !in seen
    ensures Distinct(key, seen, xs) == xs
    decreases |xs|
  {
    if xs != [] {
      assert xs == [xs[0]] + xs[1..];
      forall x | x in xs[1..] ensures key(x) !in seen + {key(xs[0])} {
        var j :| 0 <= j < |xs[1..]| && xs[1..][j] == x;
        assert xs[j + 1] == x;
      }
      DistinctFixed(key, seen + {key(xs[0])}, xs[1..]);
    }
  }

  lemma {:induction false} DistinctNothing<T, K>(key: T -> K, seen: set<K>, xs: seq<T>)
    requires Keys(key, xs) <= seen
    ensures Distinct(key, seen, xs) == []
    decreases |xs|
  {
    if xs != [] {
      assert xs[0] in xs && key(xs[0]) in Keys(key, xs);
      assert Keys(key, xs[1..]) <= Keys(key, xs);
      DistinctNothing(key, seen, xs[1..]);
    }
  }

  /** De-duplicating first against less and then against more is de-duplicating against more. */
  lemma {:induction false} DistinctDistinct<T, K>(key: T -> K, more: set<K>, less: set<K>, xs: seq<T>)
    requires less <= more
    ensures Distinct(key, more, Distinct(key, less, xs)) == Distinct(key, more, xs)
    decreases |xs|
  {
    if xs != [] {
      var k := key(xs[0]);
      if k in less {
        DistinctDistinct(key, more, less, xs[1..]);
      } else {
        var rest := Distinct(key, less + {k}, xs[1..]);
        assert Distinct(key, less, xs) == [xs[0]] + rest;
        assert ([xs[0]] + rest)[1..] == rest;
        if k in more {
          DistinctDistinct(key, more, less + {k}, xs[1..]);
        } else {
          DistinctDistinct(key, more + {k}, less + {k}, xs[1..]);
        }
      }
    }
  }

  lemma {:induction false} TwoOccurrences<T>(b: seq<T>, i: nat, j: nat)
    requires i < j < |b| && b[i] == b[j]
    ensures multiset(b)[b[i]] >= 2
  {
    assert b == b[..j] + [b[j]] + b[j + 1..];
    assert b[..j][i] == b[i] && b[i] in multiset(b[..j]);
  }

  lemma {:induction false} UniqueCount<T, K>(key: T -> K, a: seq<T>, x: T)
    requires UniqueKeys(key, a)
    ensures multiset(a)[x] <= 1
    decreases |a|
  {
    if a != [] {
      assert a == [a[0]] + a[1..];
      UniqueCount(key, a[1..], x);
      assert forall y <- a[1..] :: key(y) != key(a[0]);
    }
  }

  /** Having unique keys does not depend on the order. */
  lemma {:induction false} UniqueKeysPermute<T, K>(key: T -> K, a: seq<T>, b: seq<T>)
    requires UniqueKeys(key, a) && multiset(a) == multiset(b)
    ensures UniqueKeys(key, b)
  {
    forall i, j | 0 <= i < j < |b| ensures key(b[i]) != key(b[j]) {
      assert b[i] in multiset(a) && b[j] in multiset(a);
      UniqueCount(key, a, b[i]);
      if b[i] == b[j] {
        TwoOccurrences(b, i, j);
      }
    }
  }

  // ----- filtering

  function Filter<T>(p: T -> bool, xs: seq<T>): seq<T> {
    if xs == [] then [] else (if p(xs[0]) then [xs[0]] else []) + Filter(p, xs[1..])
  }

  lemma {:induction false} FilterConcat<T>(p: T -> bool, a: seq<T>, b: seq<T>)
    ensures Filter(p, a + b) == Filter(p, a) + Filter(p, b)
  {
    if a == [] {
      assert a + b == b;
    } else {
      var head := if p(a[0]) then [a[0]] else [];
      assert (a + b)[0] == a[0] && (a + b)[1..] == a[1..] + b;
      calc {
        Filter(p, a + b);
        head + Filter(p, a[1..] + b);
        { FilterConcat(p, a[1..], b); }
        head + (Filter(p, a[1..]) + Filter(p, b));
        (head + Filter(p, a[1..])) + Filter(p, b);
      }
    }
  }

  lemma {:induction false} FilterNone<T>(p: T -> bool, xs: seq<T>)
    requires forall x <- xs :: !p(x)
    ensures Filter(p, xs) == []
  {
    if xs != [] {
      FilterNone(p, xs[1..]);
    }
  }

  lemma {:induction false} FilterMembers<T>(p: T -> bool, xs: seq<T>)
    ensures forall x :: x in Filter(p, xs) <==> x in xs && p(x)
  {
    if xs != [] {
      FilterMembers(p, xs[1..]);
      assert forall x :: x in xs <==> x == xs[0] || x in xs[1..];
    }
  }

  lemma {:induction false} FilterMember<T>(p: T -> bool, xs: seq<T>, x: T)
    requires x in Filter(p, xs)
    ensures x in xs && p(x)
  {
    if x !in Filter(p, xs[1..]) {
      assert x == xs[0];
    } else {
      FilterMember(p, xs[1..], x);
    }
  }

  /** Filtering keeps keys unique. */
  lemma {:induction false} FilterUnique<T, K>(key: T -> K, p: T -> bool, xs: seq<T>)
    requires forall i, j :: 0 <= i < j < |xs| && p(xs[i]) && p(xs[j]) ==> key(xs[i]) != key(xs[j])
    ensures UniqueKeys(key, Filter(p, xs))
  {
    if xs != [] {
      FilterUnique(key, p, xs[1..]);
      if p(xs[0]) {
        forall y | y in Filter(p, xs[1..]) ensures key(y) != key(xs[0]) {
          FilterMember(p, xs[1..], y);
          var j :| 0 <= j < |xs[1..]| && xs[1..][j] == y;
          assert xs[j + 1] == y;
        }
      }
    }
  }

  // ----- mapping and counting

  function Mapped<T, U>(f: T -> U, xs: seq<T>): (r: seq<U>)
    ensures |r| == |xs|
    ensures forall i :: 0 <= i < |r| ==> r[i] == f(xs[i])
  {
    if xs == [] then [] else [f(xs[0])] + Mapped(f, xs[1..])
  }

  lemma {:induction false} MappedConcat<T, U>(f: T -> U, a: seq<T>, b: seq<T>)
    ensures Mapped(f, a + b) == Mapped(f, a) + Mapped(f, b)
  {
  }

  /** A loop that appends `f(x)` for the elements that satisfy `p`. */
  method Collect<T, U>(p: T -> bool, f: T -> U, xs: seq<T>) returns (out: seq<U>)
    ensures out == Mapped(f, Filter(p, xs))
  {
    out := [];
    for i := 0 to |xs|
      invariant out == Mapped(f, Filter(p, xs[..i]))
    {
      assert xs[..i + 1] == xs[..i] + [xs[i]];
      FilterConcat(p, xs[..i], [xs[i]]);
      assert Filter(p, [xs[i]]) == if p(xs[i]) then [xs[i]] else [];
      if p(xs[i]) {
        out := out + [f(xs[i])];
      }
    }
    assert xs[..|xs|] == xs;
  }

  /** A loop with a seen-map: `f(x)` for the first element of each key among those that satisfy `p`. */
  method CollectFirsts<T, U, K(==)>(p: T -> bool, key: T -> K, f: T -> U, xs: seq<T>) returns (out: seq<U>)
    ensures out == Mapped(f, Distinct(key, {}, Filter(p, xs)))
  {
    out := [];
    var seen: set<K> := {};
    ghost var chosen: seq<T> := [];
    ghost var whole := Distinct(key, {}, Filter(p, xs));
    assert xs[0..] == xs;
    for i := 0 to |xs|
      invariant out == Mapped(f, chosen) && chosen + Distinct(key, seen, Filter(p, xs[i..])) == whole
    {
      var x := xs[i];
      ghost var rest := Filter(p, xs[i + 1..]);
      assert xs[i..] == [x] + xs[i + 1..];
      assert Filter(p, xs[i..]) == (if p(x) then [x] else []) + rest;
      DistinctCons(key, seen, x, rest);
      if !p(x) {
        assert [] + rest == rest;
      } else if key(x) !in seen {
        var more := Distinct(key, seen + {key(x)}, rest);
        assert chosen + ([x] + more) == (chosen + [x]) + more;
        MappedConcat(f, chosen, [x]);
        seen := seen + {key(x)};
        out := out + [f(x)];
        chosen := chosen + [x];
      }
    }
    assert xs[|xs|..] == [] && chosen + [] == chosen;
  }

  lemma {:induction false} FirstsCover<T, K>(p: T -> bool, key: T -> K, xs: seq<T>, x: T)
    requires x in xs && p(x)
    ensures exists c <- Distinct(key, {}, Filter(p, xs)) :: p(c) && key(c) == key(x)
  {
    var kept := Filter(p, xs);
    FilterMembers(p, xs);
    DistinctKeys(key, {}, kept);
    assert key(x) in Keys(key, kept);
    assert key(x) in Keys(key, Distinct(key, {}, kept));
  }

  lemma {:induction false} MappedKeys<T, K>(key: T -> K, xs: seq<T>, k: K)
    ensures k in Mapped(key, xs) <==> k in Keys(key, xs)
  {
    var keys := Mapped(key, xs);
    if k in keys {
      var i :| 0 <= i < |keys| && keys[i] == k;
      assert xs[i] in xs;
    }
    if k in Keys(key, xs) {
      var i :| 0 <= i < |xs| && key(xs[i]) == k;
      assert keys[i] == k;
    }
  }

  /** The keys of the chosen elements are the keys of the elements that satisfy `p`, each once. */
  lemma {:induction false} FirstKeys<T, K>(p: T -> bool, key: T -> K, xs: seq<T>, k: K)
    ensures var keys := Mapped(key, Distinct(key, {}, Filter(p, xs)));
            NoRepeats(keys) && (k in keys <==> exists x <- xs :: p(x) && key(x) == k)
  {
    var kept := Filter(p, xs);
    MappedKeys(key, Distinct(key, {}, kept), k);
    DistinctKeys(key, {}, kept);
    assert k in Keys(key, kept) <==> exists x <- xs :: p(x) && key(x) == k by {
      FilterMembers(p, xs);
    }
  }

  /** A loop that applies a partial function and stops at the first element it does not handle. */
  method MapOrStop<T, U>(f: T -> Option<U>, xs: seq<T>) returns (out: Option<seq<U>>)
    ensures out.Some? <==> forall i :: 0 <= i < |xs| ==> f(xs[i]).Some?
    ensures out.Some? ==> |out.value| == |xs| && forall i :: 0 <= i < |xs| ==> f(xs[i]) == Some(out.value[i])
  {
    var done: seq<U> := [];
    for i := 0 to |xs|
      invariant |done| == i && forall k :: 0 <= k < i ==> f(xs[k]) == Some(done[k])
    {
      var value := f(xs[i]);
      if value.None? {
        return None;
      }
      done := done + [value.value];
    }
    out := Some(done);
  }

  /** Position of the first element that satisfies `p`, the length if there is none. */
  function FirstSuch<T>(p: T -> bool, xs: seq<T>): (k: nat)
    ensures k <= |xs| && (k < |xs| ==> p(xs[k])) && forall i :: 0 <= i < k ==> !p(xs[i])
  {
    if xs == [] || p(xs[0]) then 0 else 1 + FirstSuch(p, xs[1..])
  }

  lemma {:induction false} FirstSuchIs<T>(p: T -> bool, xs: seq<T>, k: nat)
    requires k <= |xs| && (k < |xs| ==> p(xs[k])) && forall i :: 0 <= i < k ==> !p(xs[i])
    ensures FirstSuch(p, xs) == k
  {
  }

  /** What a search with a partial function meets first: an element it does not handle (`None`), a hit, or
      the end. */
  function SearchOutcome<T, U>(f: T -> Option<U>, hit: U -> bool, xs: seq<T>): Option<bool> {
    var k := FirstSuch((x: T) => f(x).None? || hit(f(x).value), xs);
    if k == |xs| then Some(false) else if f(xs[k]).None? then None else Some(true)
  }

  method SearchOrStop<T, U>(f: T -> Option<U>, hit: U -> bool, xs: seq<T>) returns (result: Option<bool>)
    ensures result == SearchOutcome(f, hit, xs)
  {
    ghost var p := (x: T) => f(x).None? || hit(f(x).value);
    for i := 0 to |xs|
      invariant forall k :: 0 <= k < i ==> !p(xs[k])
    {
      var value := f(xs[i]);
      if value.None? {
        FirstSuchIs(p, xs, i);
        return None;
      }
      if hit(value.value) {
        FirstSuchIs(p, xs, i);
        return Some(true);
      }
    }
    FirstSuchIs(p, xs, |xs|);
    result := Some(false);
  }

  function One(condition: bool): nat {
    if condition then 1 else 0
  }

  function Count<T>(p: T -> bool, xs: seq<T>): nat {
    if xs == [] then 0 else Count(p, xs[..|xs| - 1]) + if p(xs[|xs| - 1]) then 1 else 0
  }

  lemma {:induction false} CountSnoc<T>(p: T -> bool, xs: seq<T>, x: T)
    ensures Count(p, xs + [x]) == Count(p, xs) + if p(x) then 1 else 0
  {
    assert (xs + [x])[..|xs|] == xs;
  }

  lemma {:induction false} CountConcat<T>(p: T -> bool, a: seq<T>, b: seq<T>)
    ensures Count(p, a + b) == Count(p, a) + Count(p, b)
  {
    if b == [] {
      assert a + b == a;
    } else {
      var init, last := b[..|b| - 1], b[|b| - 1];
      assert a + b == (a + init) + [last] && b == init + [last];
      CountConcat(p, a, init);
      CountSnoc(p, a + init, last);
      CountSnoc(p, init, last);
    }
  }

  lemma {:induction false} CountAll<T>(p: T -> bool, xs: seq<T>)
    ensures Count(p, xs) <= |xs|
    ensures Count(p, xs) == |xs| <==> forall i :: 0 <= i < |xs| ==> p(xs[i])
  {
    if xs != [] {
      CountAll(p, xs[..|xs| - 1]);
    }
  }

  lemma {:induction false} CountIsFilter<T>(p: T -> bool, xs: seq<T>)
    ensures Count(p, xs) == |Filter(p, xs)|
  {
    if xs != [] {
      var init, last := xs[..|xs| - 1], xs[|xs| - 1];
      assert xs == init + [last];
      CountIsFilter(p, init);
      FilterConcat(p, init, [last]);
    }
  }

  lemma {:induction false} CountZero<T>(p: T -> bool, xs: seq<T>)
    ensures Count(p, xs) == 0 <==> forall i :: 0 <= i < |xs| ==> !p(xs[i])
  {
    if xs != [] {
      CountZero(p, xs[..|xs| - 1]);
    }
  }

  function Sum<T>(f: T -> nat, xs: seq<T>): nat {
    if xs == [] then 0 else Sum(f, xs[..|xs| - 1]) + f(xs[|xs| - 1])
  }

  lemma {:induction false} SumSnoc<T>(f: T -> nat, xs: seq<T>, x: T)
    ensures Sum(f, xs + [x]) == Sum(f, xs) + f(x)
  {
    assert (xs + [x])[..|xs|] == xs;
  }

  /** The loop all report validators share: reject a repeated key or an element that fails its check. */
  method ValidateEach<T, K(==)>(check: T -> bool, key: T -> K, xs: seq<T>) returns (ok: bool)
    ensures ok <==> (forall i :: 0 <= i < |xs| ==> check(xs[i])) && UniqueKeys(key, xs)
  {
    var seen: set<K> := {};
    for i := 0 to |xs|
      invariant forall k :: 0 <= k < i ==> check(xs[k]) && key(xs[k]) in seen
      invariant forall id <- seen :: exists k :: 0 <= k < i && key(xs[k]) == id
      invariant forall j, k :: 0 <= j < k < i ==> key(xs[j]) != key(xs[k])
    {
      if key(xs[i]) in seen {
        return false;
      }
      seen := seen + {key(xs[i])};
      if !check(xs[i]) {
        return false;
      }
    }
    ok := true;
  }

  // ----- stable sorting

  ghost predicate TotalPreorder<T(!new)>(le: (T, T) -> bool) {
    && (forall x, y :: le(x, y) || le(y, x))
    && (forall x, y, z :: le(x, y) && le(y, z) ==> le(x, z))
  }

  ghost predicate SortedBy<T>(le: (T, T) -> bool, xs: seq<T>) {
    forall i, j :: 0 <= i < j < |xs| ==> le(xs[i], xs[j])
  }

  function Insert<T>(le: (T, T) -> bool, x: T, ys: seq<T>): seq<T> {
    if ys == [] || le(x, ys[0]) then [x] + ys else [ys[0]] + Insert(le, x, ys[1..])
  }

  /** The result of `sort.SliceStable` with `less(a, b) == !le(b, a)`. */
  function StableSort<T>(le: (T, T) -> bool, xs: seq<T>): seq<T> {
    if xs == [] then [] else Insert(le, xs[0], StableSort(le, xs[1..]))
  }

  lemma {:induction false} InsertSorted<T(!new)>(le: (T, T) -> bool, x: T, ys: seq<T>)
    requires TotalPreorder(le) && SortedBy(le, ys)
    ensures SortedBy(le, Insert(le, x, ys))
  {
    if ys == [] || le(x, ys[0]) {
      assert forall y <- ys :: le(x, y);
    } else {
      var rest := Insert(le, x, ys[1..]);
      InsertSorted(le, x, ys[1..]);
      InsertPermutes(le, x, ys[1..]);
      forall i | 0 <= i < |rest| ensures le(ys[0], rest[i]) {
        assert rest[i] in multiset(rest);
        assert rest[i] == x || rest[i] in ys[1..];
      }
    }
  }

  lemma {:induction false} InsertPermutes<T>(le: (T, T) -> bool, x: T, ys: seq<T>)
    ensures multiset(Insert(le, x, ys)) == multiset{x} + multiset(ys)
  {
    if ys != [] && !le(x, ys[0]) {
      assert ys == [ys[0]] + ys[1..];
      InsertPermutes(le, x, ys[1..]);
    }
  }

  /** Whatever the comparison, sorting loses and invents nothing. */
  lemma {:induction false} StableSortPermutes<T>(le: (T, T) -> bool, xs: seq<T>)
    ensures multiset(StableSort(le, xs)) == multiset(xs) && |StableSort(le, xs)| == |xs|
  {
    if xs != [] {
      StableSortPermutes(le, xs[1..]);
      InsertPermutes(le, xs[0], StableSort(le, xs[1..]));
      assert xs == [xs[0]] + xs[1..];
    }
    assert |multiset(StableSort(le, xs))| == |multiset(xs)|;
  }

  lemma {:induction false} PermutedAll<T>(p: T -> bool, a: seq<T>, b: seq<T>)
    requires multiset(a) == multiset(b) && forall i :: 0 <= i < |a| ==> p(a[i])
    ensures forall i :: 0 <= i < |b| ==> p(b[i])
  {
    forall i | 0 <= i < |b| ensures p(b[i]) {
      assert b[i] in multiset(a);
    }
  }

  ghost predicate All<T>(p: T -> bool, xs: seq<T>) {
    forall i :: 0 <= i < |xs| ==> p(xs[i])
  }

  /** What holds of every image holds in any order of the images. */
  lemma {:induction false} ImagesAll<T, U>(p: U -> bool, f: T -> U, good: T -> bool, xs: seq<T>, rs: seq<U>)
    requires multiset(rs) == multiset(Mapped(f, xs)) && forall x <- xs :: p(f(x)) <==> good(x)
    ensures All(p, rs) <==> All(good, xs)
  {
    var images := Mapped(f, xs);
    if All(p, rs) {
      PermutedAll(p, rs, images);
      forall i | 0 <= i < |xs| ensures good(xs[i]) {
        assert xs[i] in xs && p(images[i]);
      }
    }
    if All(good, xs) {
      forall i | 0 <= i < |xs| ensures p(images[i]) {
        assert xs[i] in xs;
      }
      PermutedAll(p, images, rs);
    }
  }

  /** Sorting gives a sorted permutation. */
  lemma {:induction false} StableSortFacts<T(!new)>(le: (T, T) -> bool, xs: seq<T>)
    requires TotalPreorder(le)
    ensures SortedBy(le, StableSort(le, xs))
    ensures multiset(StableSort(le, xs)) == multiset(xs)
    ensures |StableSort(le, xs)| == |xs|
  {
    StableSortPermutes(le, xs);
    if xs != [] {
      StableSortFacts(le, xs[1..]);
      InsertSorted(le, xs[0], StableSort(le, xs[1..]));
    }
  }

  lemma {:induction false} InsertStable<T(!new)>(le: (T, T) -> bool, p: T -> bool, x: T, ys: seq<T>)
    requires TotalPreorder(le)
    requires forall a, b :: p(a) && p(b) ==> le(a, b)
    ensures Filter(p, Insert(le, x, ys)) == Filter(p, [x]) + Filter(p, ys)
  {
    if ys == [] || le(x, ys[0]) {
      FilterConcat(p, [x], ys);
    } else {
      InsertStable(le, p, x, ys[1..]);
      assert ys == [ys[0]] + ys[1..];
      assert Insert(le, x, ys) == [ys[0]] + Insert(le, x, ys[1..]);
      FilterConcat(p, [ys[0]], Insert(le, x, ys[1..]));
      FilterConcat(p, [ys[0]], ys[1..]);
      if p(x) {
        assert !p(ys[0]);
      }
    }
  }

  /** Stability: elements that compare equal keep their order. */
  lemma {:induction false} StableSortStable<T(!new)>(le: (T, T) -> bool, p: T -> bool, xs: seq<T>)
    requires TotalPreorder(le)
    requires forall a, b :: p(a) && p(b) ==> le(a, b)
    ensures Filter(p, StableSort(le, xs)) == Filter(p, xs)
  {
    if xs != [] {
      StableSortStable(le, p, xs[1..]);
      InsertStable(le, p, xs[0], StableSort(le, xs[1..]));
      assert xs == [xs[0]] + xs[1..];
      FilterConcat(p, [xs[0]], xs[1..]);
    }
  }

  lemma {:induction false} CountCons<T>(p: T -> bool, x: T, xs: seq<T>)
    ensures Count(p, [x] + xs) == (if p(x) then 1 else 0) + Count(p, xs)
  {
    if xs == [] {
      assert [x] + xs == [] + [x];
      CountSnoc(p, [], x);
    } else {
      var init, last := xs[..|xs| - 1], xs[|xs| - 1];
      assert [x] + xs == ([x] + init) + [last];
      CountSnoc(p, [x] + init, last);
      CountCons(p, x, init);
    }
  }

  lemma {:induction false} InsertCount<T>(le: (T, T) -> bool, p: T -> bool, x: T, ys: seq<T>)
    ensures Count(p, Insert(le, x, ys)) == (if p(x) then 1 else 0) + Count(p, ys)
  {
    if ys == [] || le(x, ys[0]) {
      CountCons(p, x, ys);
    } else {
      assert ys == [ys[0]] + ys[1..];
      CountCons(p, ys[0], ys[1..]);
      CountCons(p, ys[0], Insert(le, x, ys[1..]));
      InsertCount(le, p, x, ys[1..]);
    }
  }

  /** Sorting changes no count. */
  lemma {:induction false} StableSortCount<T>(le: (T, T) -> bool, p: T -> bool, xs: seq<T>)
    ensures Count(p, StableSort(le, xs)) == Count(p, xs)
  {
    if xs != [] {
      assert xs == [xs[0]] + xs[1..];
      CountCons(p, xs[0], xs[1..]);
      InsertCount(le, p, xs[0], StableSort(le, xs[1..]));
      StableSortCount(le, p, xs[1..]);
    }
  }

  lemma {:induction false} CountThrough<T, U>(p: U -> bool, f: T -> U, q: T -> bool, xs: seq<T>)
    requires forall i :: 0 <= i < |xs| ==> p(f(xs[i])) == q(xs[i])
    ensures Count(p, Mapped(f, xs)) == Count(q, xs)
  {
    if xs != [] {
      var init, last := xs[..|xs| - 1], xs[|xs| - 1];
      assert xs == init + [last];
      CountThrough(p, f, q, init);
      assert Mapped(f, xs) == Mapped(f, init) + [f(last)];
      CountSnoc(p, Mapped(f, init), f(last));
    }
  }

  ghost predicate Antisymmetric<T>(le: (T, T) -> bool, xs: seq<T>) {
    forall x <- xs, y <- xs :: le(x, y) && le(y, x) ==> x == y
  }

  ghost predicate SameMembers<T>(a: seq<T>, b: seq<T>) {
    (forall x <- a :: x in b) && (forall x <- b :: x in a)
  }

  lemma {:induction false} SortedHeads<T(!new)>(le: (T, T) -> bool, a: seq<T>, b: seq<T>)
    requires SortedBy(le, a) && SortedBy(le, b) && SameMembers(a, b) && a != []
    requires Antisymmetric(le, a)
    ensures b != [] && a[0] == b[0]
  {
    assert a[0] in b;
    assert b[0] in a;
    var i :| 0 <= i < |b| && b[i] == a[0];
    var j :| 0 <= j < |a| && a[j] == b[0];
    if i != 0 && j != 0 {
      assert le(a[0], a[j]) && le(b[0], b[i]);
    }
  }

  lemma {:induction false} MembersNonEmpty<T>(b: seq<T>, a: seq<T>)
    requires b != [] && forall x <- b :: x in a
    ensures a != []
  {
    assert b[0] in a;
  }

  lemma {:induction false} TailMembers<T, K>(key: T -> K, a: seq<T>, x: T)
    requires a != [] && UniqueKeys(key, a)
    ensures x in a[1..] <==> x in a && x != a[0]
  {
    assert a == [a[0]] + a[1..];
    if x in a[1..] {
      var j :| 0 <= j < |a[1..]| && a[1..][j] == x;
      assert key(a[0]) != key(a[j + 1]);
    }
  }

  lemma {:induction false} TailFacts<T(!new), K>(le: (T, T) -> bool, key: T -> K, a: seq<T>)
    requires a != [] && SortedBy(le, a) && UniqueKeys(key, a)
    ensures SortedBy(le, a[1..]) && UniqueKeys(key, a[1..])
  {
  }

  /** A sorted arrangement of distinct-ranked elements is unique, whatever order they came in. */
  lemma {:induction false} SortedUnique<T(!new), K>(le: (T, T) -> bool, key: T -> K, a: seq<T>, b: seq<T>)
    requires SortedBy(le, a) && SortedBy(le, b) && UniqueKeys(key, a) && UniqueKeys(key, b) && SameMembers(a, b)
    requires Antisymmetric(le, a)
    ensures a == b
    decreases |a|
  {
    if b != [] {
      MembersNonEmpty(b, a);
    }
    if a != [] {
      SortedHeads(le, a, b);
      TailFacts(le, key, a);
      TailFacts(le, key, b);
      forall x ensures x in a[1..] <==> x in b[1..] {
        TailMembers(key, a, x);
        TailMembers(key, b, x);
      }
      assert forall x <- a[1..] :: x in a;
      SortedUnique(le, key, a[1..], b[1..]);
      assert a == [a[0]] + a[1..] && b == [b[0]] + b[1..];
    }
  }
}

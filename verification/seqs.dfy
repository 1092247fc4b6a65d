/** The array operations the list pages chain together: `filter`, a stable
    `sort` with a comparator, `slice`, and a few counts and sums. */
module Seqs {

  function Min(a: int, b: int): int {
    if a <= b then a else b
  }

  /** `s.filter(p)`: the elements satisfying `p`, in their original order. */
  function Filter<T>(s: seq<T>, p: T -> bool): (r: seq<T>)
    ensures |r| <= |s|
    ensures forall i :: 0 <= i < |r| ==> p(r[i])
    ensures forall i :: 0 <= i < |s| && p(s[i]) ==> s[i] in r
    ensures multiset(r) <= multiset(s)
  {
    if |s| == 0 then []
    else
      assert s == [s[0]] + s[1..];
      (if p(s[0]) then [s[0]] else []) + Filter(s[1..], p)
  }

  /** Two filters in a row keep exactly what one filter on the conjunction keeps. */
  lemma {:induction false} FilterFilter<T>(s: seq<T>, p: T -> bool, q: T -> bool, pq: T -> bool)
    requires forall x :: pq(x) == (p(x) && q(x))
    ensures Filter(Filter(s, p), q) == Filter(s, pq)
  {
    if |s| > 0 {
      FilterFilter(s[1..], p, q, pq);
      var fp := Filter(s, p);
      if p(s[0]) {
        assert fp == [s[0]] + Filter(s[1..], p);
        assert fp[1..] == Filter(s[1..], p);
        assert Filter(fp, q) == (if q(s[0]) then [s[0]] else []) + Filter(fp[1..], q);
      } else {
        assert fp == Filter(s[1..], p);
      }
    }
  }

  /** Filtering with a predicate that holds of every element keeps the sequence whole. */
  lemma {:induction false} FilterAll<T>(s: seq<T>, p: T -> bool)
    requires forall i :: 0 <= i < |s| ==> p(s[i])
    ensures Filter(s, p) == s
  {
    if |s| > 0 {
      FilterAll(s[1..], p);
      assert [s[0]] + s[1..] == s;
    }
  }

  /** Filtering depends only on what the predicate answers. */
  lemma {:induction false} FilterExt<T>(s: seq<T>, p: T -> bool, q: T -> bool)
    requires forall x :: p(x) == q(x)
    ensures Filter(s, p) == Filter(s, q)
  {
    if |s| > 0 {
      FilterExt(s[1..], p, q);
    }
  }

  /** Two conditions that agree on every element of `s` keep the same elements. */
  lemma {:induction false} FilterExtOn<T>(s: seq<T>, p: T -> bool, q: T -> bool)
    requires forall i :: 0 <= i < |s| ==> p(s[i]) == q(s[i])
    ensures Filter(s, p) == Filter(s, q)
  {
    if |s| > 0 {
      assert forall i :: 0 <= i < |s[1..]| ==> s[1..][i] == s[i + 1];
      FilterExtOn(s[1..], p, q);
    }
  }

  /** One `if (filter) list = list.filter(keep)` step of a filter chain. */
  datatype Stage<!T> = Stage(active: bool, keep: T -> bool)

  /** An element passes a stage when the stage is off or keeps it. */
  predicate Passes<T>(st: Stage<T>, x: T) {
    !st.active || st.keep(x)
  }

  /** An element passes every stage of a chain. */
  predicate PassesAll<T>(stages: seq<Stage<T>>, x: T) {
    forall i :: 0 <= i < |stages| ==> Passes(stages[i], x)
  }

  /** Passing a chain of six stages is passing each of them. */
  lemma PassesSix<T>(a: Stage<T>, b: Stage<T>, c: Stage<T>, d: Stage<T>, e: Stage<T>, f: Stage<T>, x: T)
    ensures PassesAll([a, b, c, d, e, f], x) <==>
      Passes(a, x) && Passes(b, x) && Passes(c, x) && Passes(d, x) && Passes(e, x) && Passes(f, x)
  {
    var st := [a, b, c, d, e, f];
    assert st[0] == a && st[1] == b && st[2] == c && st[3] == d && st[4] == e && st[5] == f;
  }

  /** Passing a chain of seven stages is passing each of them. */
  lemma PassesSeven<T>(a: Stage<T>, b: Stage<T>, c: Stage<T>, d: Stage<T>, e: Stage<T>, f: Stage<T>, g: Stage<T>, x: T)
    ensures PassesAll([a, b, c, d, e, f, g], x) <==>
      Passes(a, x) && Passes(b, x) && Passes(c, x) && Passes(d, x) && Passes(e, x) && Passes(f, x) && Passes(g, x)
  {
    var st := [a, b, c, d, e, f, g];
    assert st[0] == a && st[1] == b && st[2] == c && st[3] == d && st[4] == e && st[5] == f && st[6] == g;
  }

  /** Runs the stages in order, each on what the previous ones kept. */
  function Chain<T>(s: seq<T>, stages: seq<Stage<T>>): seq<T>
    decreases |stages|
  {
    if |stages| == 0 then s
    else
      var next := if stages[0].active then Filter(s, stages[0].keep) else s;
      Chain(next, stages[1..])
  }

  /** A chain of filters keeps exactly what one filter on "passes every stage" keeps. */
  lemma {:induction false} ChainIsOneFilter<T>(s: seq<T>, stages: seq<Stage<T>>)
    ensures Chain(s, stages) == Filter(s, x => PassesAll(stages, x))
    decreases |stages|
  {
    if |stages| == 0 {
      FilterAll(s, x => PassesAll(stages, x));
    } else {
      var st := stages[0];
      var rest := stages[1..];
      var first := x => Passes(st, x);
      var next := if st.active then Filter(s, st.keep) else s;
      if st.active {
        FilterExt(s, st.keep, first);
      } else {
        FilterAll(s, first);
      }
      assert next == Filter(s, first);
      ChainIsOneFilter(next, rest);
      forall x ensures PassesAll(stages, x) == (first(x) && PassesAll(rest, x)) {
        if first(x) && PassesAll(rest, x) {
          forall i | 0 <= i < |stages| ensures Passes(stages[i], x) {
            if i > 0 {
              assert stages[i] == rest[i - 1];
            }
          }
        }
        if PassesAll(stages, x) {
          assert Passes(stages[0], x);
          forall i | 0 <= i < |rest| ensures Passes(rest[i], x) {
            assert rest[i] == stages[i + 1];
          }
        }
      }
      FilterFilter(s, first, x => PassesAll(rest, x), x => PassesAll(stages, x));
    }
  }

  /** The list pages' "filter, then sort" result: taken from `s`, every element kept by
      `p`, every element of `s` that `p` keeps present, and ordered by `le` when `le` is a
      total preorder. */
  lemma SortedSelection<T(!new)>(s: seq<T>, p: T -> bool, le: (T, T) -> bool)
    ensures var r := SortBy(Filter(s, p), le);
      && multiset(r) <= multiset(s)
      && (forall i :: 0 <= i < |r| ==> p(r[i]))
      && (forall i :: 0 <= i < |s| && p(s[i]) ==> s[i] in r)
      && (TotalPreorder(le) ==> SortedBy(r, le))
  {
    var f := Filter(s, p);
    var r := SortBy(f, le);
    forall i | 0 <= i < |r| ensures p(r[i]) {
      assert r[i] in multiset(f);
      var k :| 0 <= k < |f| && f[k] == r[i];
    }
    forall i | 0 <= i < |s| && p(s[i]) ensures s[i] in r {
      assert s[i] in multiset(r);
    }
    if TotalPreorder(le) {
      SortBySorted(f, le);
    }
  }

  /** The recursion behind `Filter` without its contract, for proofs that only need to
      unfold it. */
  function Sift<T>(s: seq<T>, p: T -> bool): seq<T> {
    if |s| == 0 then [] else (if p(s[0]) then [s[0]] else []) + Sift(s[1..], p)
  }

  lemma {:induction false} FilterIsSift<T>(s: seq<T>, p: T -> bool)
    ensures Filter(s, p) == Sift(s, p)
  {
    if |s| > 0 {
      FilterIsSift(s[1..], p);
    }
  }

  lemma {:induction false} SiftPartition<T(!new)>(s: seq<T>, p: T -> bool, q: T -> bool)
    requires forall x :: q(x) <==> !p(x)
    ensures multiset(Sift(s, p)) + multiset(Sift(s, q)) == multiset(s)
  {
    if |s| > 0 {
      var h, t := s[0], s[1..];
      SiftPartition(t, p, q);
      assert multiset(s) == multiset{h} + multiset(t) by {
        assert s == [h] + t;
      }
      if p(h) {
        assert Sift(s, p) == [h] + Sift(t, p);
        assert Sift(s, q) == Sift(t, q);
      } else {
        assert Sift(s, p) == Sift(t, p);
        assert Sift(s, q) == [h] + Sift(t, q);
      }
    }
  }

  lemma {:induction false} SiftMultiplicity<T>(s: seq<T>, p: T -> bool, x: T)
    ensures multiset(Sift(s, p))[x] == if p(x) then multiset(s)[x] else 0
  {
    if |s| > 0 {
      var h, t := s[0], s[1..];
      SiftMultiplicity(t, p, x);
      assert multiset(s) == multiset{h} + multiset(t) by {
        assert s == [h] + t;
      }
      if p(h) {
        assert Sift(s, p) == [h] + Sift(t, p);
      } else {
        assert Sift(s, p) == Sift(t, p);
      }
    }
  }

  /** A filter keeps every copy of each element that satisfies the predicate, and no
      copy of any other. */
  lemma FilterMultiplicity<T>(s: seq<T>, p: T -> bool)
    ensures forall x :: multiset(Filter(s, p))[x] == if p(x) then multiset(s)[x] else 0
  {
    FilterIsSift(s, p);
    forall x ensures multiset(Sift(s, p))[x] == if p(x) then multiset(s)[x] else 0 {
      SiftMultiplicity(s, p, x);
    }
  }

  lemma {:induction false} SiftAppendOne<T>(s: seq<T>, e: T, p: T -> bool)
    ensures Sift(s + [e], p) == Sift(s, p) + (if p(e) then [e] else [])
  {
    if |s| == 0 {
      assert s + [e] == [e];
      assert Sift([e], p) == (if p(e) then [e] else []) + Sift([e][1..], p);
    } else {
      assert (s + [e])[0] == s[0];
      assert (s + [e])[1..] == s[1..] + [e];
      SiftAppendOne(s[1..], e, p);
    }
  }

  /** Appending one element adds one to the count exactly when it satisfies `p`. */
  lemma CountAppendOne<T>(s: seq<T>, e: T, p: T -> bool)
    ensures Count(s + [e], p) == Count(s, p) + (if p(e) then 1 else 0)
    ensures Count([], p) == 0
  {
    FilterIsSift(s + [e], p);
    FilterIsSift(s, p);
    SiftAppendOne(s, e, p);
  }

  /** Filtering by a predicate and by its complement splits the elements between the two. */
  lemma FilterPartition<T(!new)>(s: seq<T>, p: T -> bool, q: T -> bool)
    requires forall x :: q(x) <==> !p(x)
    ensures multiset(Filter(s, p)) + multiset(Filter(s, q)) == multiset(s)
  {
    FilterIsSift(s, p);
    FilterIsSift(s, q);
    SiftPartition(s, p, q);
  }

  /** `s.some(p)`: some element satisfies `p`. */
  function Any<T>(s: seq<T>, p: T -> bool): (b: bool)
    ensures b <==> exists i :: 0 <= i < |s| && p(s[i])
  {
    AnyIffExists(s, p);
    |Filter(s, p)| > 0
  }

  lemma AnyIffExists<T>(s: seq<T>, p: T -> bool)
    ensures |Filter(s, p)| > 0 <==> exists i :: 0 <= i < |s| && p(s[i])
  {
    var r := Filter(s, p);
    if |r| > 0 {
      assert p(r[0]);
      assert r[0] in multiset(s);
      var k :| 0 <= k < |s| && s[k] == r[0];
    }
  }

  /** `s.filter(p).length`. */
  function Count<T>(s: seq<T>, p: T -> bool): (n: nat)
    ensures n <= |s|
  {
    |Filter(s, p)|
  }

  /** Elements that satisfy two exclusive predicates are counted apart. */
  lemma {:induction false} CountDisjoint<T>(s: seq<T>, p: T -> bool, q: T -> bool)
    requires forall x :: !(p(x) && q(x))
    ensures Count(s, p) + Count(s, q) <= |s|
  {
    if |s| > 0 {
      CountDisjoint(s[1..], p, q);
    }
  }

  /** Elements that satisfy `p` or `q`, with the two exclusive, split into the two counts. */
  lemma {:induction false} CountSplit<T>(s: seq<T>, p: T -> bool, q: T -> bool)
    requires forall x :: p(x) != q(x)
    ensures Count(s, p) + Count(s, q) == |s|
  {
    if |s| > 0 {
      CountSplit(s[1..], p, q);
    }
  }

  /** Counting elements under two exclusive predicates separately is counting them
      under their disjunction. */
  lemma {:induction false} CountUnion<T>(s: seq<T>, p: T -> bool, q: T -> bool, pq: T -> bool)
    requires forall x :: !(p(x) && q(x))
    requires forall x :: pq(x) == (p(x) || q(x))
    ensures Count(s, p) + Count(s, q) == Count(s, pq)
  {
    if |s| > 0 {
      CountUnion(s[1..], p, q, pq);
    }
  }

  /** `s.reduce((sum, x) => sum + f(x), 0)`. */
  function Sum<T>(s: seq<T>, f: T -> int): int {
    if |s| == 0 then 0 else f(s[0]) + Sum(s[1..], f)
  }

  /** Appending an element adds its value to the sum. */
  lemma {:induction false} SumAppend<T>(s: seq<T>, x: T, f: T -> int)
    ensures Sum(s + [x], f) == Sum(s, f) + f(x)
  {
    if |s| > 0 {
      assert (s + [x])[1..] == s[1..] + [x];
      SumAppend(s[1..], x, f);
    } else {
      assert s + [x] == [x];
    }
  }

  /** Values that all lie in `lo..hi` sum to between `n * lo` and `n * hi`. */
  lemma {:induction false} SumBounds<T>(s: seq<T>, f: T -> int, lo: int, hi: int)
    requires forall i :: 0 <= i < |s| ==> lo <= f(s[i]) <= hi
    ensures |s| * lo <= Sum(s, f) <= |s| * hi
  {
    if |s| > 0 {
      SumBounds(s[1..], f, lo, hi);
      assert |s| * lo == lo + (|s| - 1) * lo;
      assert |s| * hi == hi + (|s| - 1) * hi;
    }
  }

  lemma {:induction false} SumNonNegative<T>(s: seq<T>, f: T -> int)
    requires forall i :: 0 <= i < |s| ==> f(s[i]) >= 0
    ensures Sum(s, f) >= 0
  {
    if |s| > 0 {
      SumNonNegative(s[1..], f);
    }
  }

  /** `s.slice(0, n)`: the first `n` elements, or all of them when there are fewer. */
  function Take<T>(s: seq<T>, n: nat): (r: seq<T>)
    ensures |r| == Min(n, |s|)
    ensures r == s[..|r|]
  {
    if n <= |s| then s[..n] else s
  }

  /** `s.slice(start, end)` for non-negative bounds: both ends are clamped to the length. */
  function Slice<T>(s: seq<T>, start: nat, end: nat): (r: seq<T>)
    ensures |r| <= |s|
    ensures start <= end ==> |r| <= end - start
    ensures start <= end <= |s| ==> r == s[start..end]
    ensures start >= |s| ==> r == []
  {
    var b := Min(end, |s|);
    var a := Min(start, b);
    s[a..b]
  }

  // ----- sorting -----

  /** A comparator that orders any two elements one way or the other, consistently. */
  ghost predicate TotalPreorder<T(!new)>(le: (T, T) -> bool) {
    && (forall a, b :: le(a, b) || le(b, a))
    && (forall a, b, c :: le(a, b) && le(b, c) ==> le(a, c))
  }

  ghost predicate SortedBy<T>(s: seq<T>, le: (T, T) -> bool) {
    forall i, j :: 0 <= i < j < |s| ==> le(s[i], s[j])
  }

  /** Puts `x` in front of the first element it does not come after; equal
      elements keep their relative order. */
  function Insert<T>(x: T, s: seq<T>, le: (T, T) -> bool): (r: seq<T>)
    ensures |r| == |s| + 1
    ensures multiset(r) == multiset(s) + multiset{x}
  {
    if |s| == 0 then [x]
    else if le(x, s[0]) then [x] + s
    else
      assert s == [s[0]] + s[1..];
      [s[0]] + Insert(x, s[1..], le)
  }

  /** `s.sort(cmp)`, with JavaScript's stable sort, as an insertion sort. */
  function SortBy<T>(s: seq<T>, le: (T, T) -> bool): (r: seq<T>)
    ensures |r| == |s|
    ensures multiset(r) == multiset(s)
  {
    if |s| == 0 then []
    else
      assert s == [s[0]] + s[1..];
      Insert(s[0], SortBy(s[1..], le), le)
  }

  lemma {:induction false} InsertSorted<T(!new)>(x: T, s: seq<T>, le: (T, T) -> bool)
    requires TotalPreorder(le)
    requires SortedBy(s, le)
    ensures SortedBy(Insert(x, s, le), le)
  {
    if |s| > 0 && !le(x, s[0]) {
      var tail := Insert(x, s[1..], le);
      InsertSorted(x, s[1..], le);
      assert le(s[0], x);
      forall j | 0 <= j < |tail| ensures le(s[0], tail[j]) {
        assert tail[j] in multiset(tail);
        assert tail[j] in multiset(s[1..]) || tail[j] == x;
        if tail[j] != x {
          var k :| 0 <= k < |s[1..]| && s[1..][k] == tail[j];
          assert s[k + 1] == tail[j];
        }
      }
    }
  }

  /** Sorting with a total preorder yields a sequence ordered by it. */
  lemma {:induction false} SortBySorted<T(!new)>(s: seq<T>, le: (T, T) -> bool)
    requires TotalPreorder(le)
    ensures SortedBy(SortBy(s, le), le)
  {
    if |s| > 0 {
      SortBySorted(s[1..], le);
      InsertSorted(s[0], SortBy(s[1..], le), le);
    }
  }

  /** A prefix of an ordered sequence is ordered. */
  lemma TakeSorted<T>(s: seq<T>, n: nat, le: (T, T) -> bool)
    requires SortedBy(s, le)
    ensures SortedBy(Take(s, n), le)
  {
  }

  /** Comparator `(a, b) => key(b) - key(a)`: largest key first. */
  function Desc<T>(key: T -> int): (T, T) -> bool {
    (a: T, b: T) => key(a) >= key(b)
  }

  /** Comparator `(a, b) => key(a) - key(b)`: smallest key first. */
  function Asc<T>(key: T -> int): (T, T) -> bool {
    (a: T, b: T) => key(a) <= key(b)
  }

  lemma DescIsTotalPreorder<T(!new)>(key: T -> int)
    ensures TotalPreorder(Desc(key))
  {
  }

  lemma AscIsTotalPreorder<T(!new)>(key: T -> int)
    ensures TotalPreorder(Asc(key))
  {
  }

  /** The pages' "sort then keep the first n" step: at most `n` elements, all
      taken from `s`, ordered by `le`. */
  lemma {:induction false} TopN<T(!new)>(s: seq<T>, le: (T, T) -> bool, n: nat)
    requires TotalPreorder(le)
    ensures |Take(SortBy(s, le), n)| == Min(n, |s|)
    ensures multiset(Take(SortBy(s, le), n)) <= multiset(s)
    ensures SortedBy(Take(SortBy(s, le), n), le)
    ensures forall x :: x in s && x !in Take(SortBy(s, le), n) ==>
      |Take(SortBy(s, le), n)| == n && forall y :: y in Take(SortBy(s, le), n) ==> le(y, x)
  {
    var sorted := SortBy(s, le);
    SortBySorted(s, le);
    var t := Take(sorted, n);
    assert sorted == t + sorted[|t|..];
    assert multiset(sorted) == multiset(t) + multiset(sorted[|t|..]);
    forall x | x in s && x !in t ensures |t| == n && forall y :: y in t ==> le(y, x) {
      TopNDominates(s, le, n, x);
    }
  }

  /** An element left out of the first `n` is left out because `n` elements were
      taken and each of them comes before it. */
  lemma TopNDominates<T(!new)>(s: seq<T>, le: (T, T) -> bool, n: nat, x: T)
    requires TotalPreorder(le)
    requires x in s && x !in Take(SortBy(s, le), n)
    ensures |Take(SortBy(s, le), n)| == n
    ensures forall y :: y in Take(SortBy(s, le), n) ==> le(y, x)
  {
    var sorted := SortBy(s, le);
    SortBySorted(s, le);
    var t := Take(sorted, n);
    assert x in multiset(sorted);
    var j :| 0 <= j < |sorted| && sorted[j] == x;
    assert j >= |t|;
    forall y | y in t ensures le(y, x) {
      var i :| 0 <= i < |t| && t[i] == y;
      assert sorted[i] == y;
    }
  }

  /** "Filter, sort, keep the first n": at most `n` elements, each from `s` and
      satisfying `p`, in order; and any element satisfying `p` that is left out comes
      after all `n` that were kept. */
  lemma TopSelection<T(!new)>(s: seq<T>, p: T -> bool, le: (T, T) -> bool, n: nat)
    requires TotalPreorder(le)
    ensures var r := Take(SortBy(Filter(s, p), le), n);
      && |r| <= n
      && multiset(r) <= multiset(s)
      && (forall y :: y in r ==> p(y))
      && SortedBy(r, le)
      && (forall x :: x in s && p(x) && x !in r ==> |r| == n && forall y :: y in r ==> le(y, x))
  {
    var f := Filter(s, p);
    var r := Take(SortBy(f, le), n);
    TopN(f, le, n);
    forall y | y in r ensures p(y) {
      assert y in multiset(r);
      assert y in multiset(f);
      var k :| 0 <= k < |f| && f[k] == y;
    }
    forall x | x in s && p(x) && x !in r ensures |r| == n && forall y :: y in r ==> le(y, x) {
      var k :| 0 <= k < |s| && s[k] == x;
      assert x in f;
      TopNDominates(f, le, n, x);
    }
  }

  /** `TopN` for "highest key first", with the left-out elements compared by key. */
  lemma TopByKey<T(!new)>(s: seq<T>, key: T -> int, n: nat)
    ensures var r := Take(SortBy(s, Desc(key)), n);
      && |r| == Min(n, |s|)
      && multiset(r) <= multiset(s)
      && SortedBy(r, Desc(key))
      && (forall x, y :: x in s && x !in r && y in r ==> key(y) >= key(x))
  {
    DescIsTotalPreorder(key);
    TopN(s, Desc(key), n);
    var r := Take(SortBy(s, Desc(key)), n);
    forall x, y | x in s && x !in r && y in r ensures key(y) >= key(x) {
      TopNDominates(s, Desc(key), n, x);
      assert Desc(key)(y, x);
    }
  }

  /** `TopSelection` for "highest key first", with the left-out elements compared by key. */
  lemma TopSelectionByKey<T(!new)>(s: seq<T>, p: T -> bool, key: T -> int, n: nat)
    ensures var r := Take(SortBy(Filter(s, p), Desc(key)), n);
      && |r| <= n
      && multiset(r) <= multiset(s)
      && (forall y :: y in r ==> p(y))
      && SortedBy(r, Desc(key))
      && (forall x :: x in s && p(x) && x !in r ==> |r| == n)
      && (forall x, y :: x in s && p(x) && x !in r && y in r ==> key(y) >= key(x))
  {
    DescIsTotalPreorder(key);
    TopSelection(s, p, Desc(key), n);
    var r := Take(SortBy(Filter(s, p), Desc(key)), n);
    forall x, y | x in s && p(x) && x !in r && y in r ensures key(y) >= key(x) {
      assert Desc(key)(y, x);
    }
  }
}

/** `String.prototype.localeCompare` stands here for a fixed total order on
    strings: lexicographic comparison of code points. */
module Collation {

  import Seqs

  /** `a.localeCompare(b) <= 0`. */
  predicate Le(a: string, b: string)
    decreases |a|
  {
    |a| == 0 || (|b| > 0 && (a[0] < b[0] || (a[0] == b[0] && Le(a[1..], b[1..]))))
  }

  lemma {:induction false} LeTotal(a: string, b: string)
    ensures Le(a, b) || Le(b, a)
    decreases |a|
  {
    if |a| > 0 && |b| > 0 && a[0] == b[0] {
      LeTotal(a[1..], b[1..]);
    }
  }

  lemma {:induction false} LeTransitive(a: string, b: string, c: string)
    requires Le(a, b) && Le(b, c)
    ensures Le(a, c)
    decreases |a|
  {
    if |a| > 0 && a[0] == b[0] && b[0] == c[0] {
      LeTransitive(a[1..], b[1..], c[1..]);
    }
  }

  lemma {:induction false} LeAntisymmetric(a: string, b: string)
    requires Le(a, b) && Le(b, a)
    ensures a == b
    decreases |a|
  {
    if |a| > 0 {
      LeAntisymmetric(a[1..], b[1..]);
      assert a == [a[0]] + a[1..] && b == [b[0]] + b[1..];
    }
  }

  /** `(x, y) => field(x).localeCompare(field(y))`: by a string field, A to Z. */
  function Ascending<T>(field: T -> string): (T, T) -> bool {
    (x: T, y: T) => Le(field(x), field(y))
  }

  /** `(x, y) => field(y).localeCompare(field(x))`: by a string field, Z to A. */
  function Descending<T>(field: T -> string): (T, T) -> bool {
    (x: T, y: T) => Le(field(y), field(x))
  }

  /** Sorting records by a string field, either way, is sorting by a total preorder. */
  lemma {:induction false} ByFieldIsTotalPreorder<T(!new)>(field: T -> string)
    ensures Seqs.TotalPreorder(Ascending(field))
    ensures Seqs.TotalPreorder(Descending(field))
  {
    forall x: T, y: T ensures Le(field(x), field(y)) || Le(field(y), field(x)) {
      LeTotal(field(x), field(y));
    }
    forall x: T, y: T, z: T | Le(field(x), field(y)) && Le(field(y), field(z))
      ensures Le(field(x), field(z))
    {
      LeTransitive(field(x), field(y), field(z));
    }
  }
}

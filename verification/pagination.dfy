/** Client-side pagination of an already filtered list, and the row of page links the
    catalog draws under it. */
module Pagination {
  import opened Seqs

  /** `Math.ceil(n / size)`. */
  function TotalPages(n: nat, size: nat): (t: nat)
    requires size > 0
    ensures t * size >= n
    ensures t > 0 ==> (t - 1) * size < n
    ensures t == 0 <==> n == 0
  {
    (n + size - 1) / size
  }

  /** `s.slice((p - 1) * size, (p - 1) * size + size)` for a page number `p >= 1`. */
  function PageOf<T>(s: seq<T>, p: nat, size: nat): (r: seq<T>)
    requires p >= 1 && size > 0
    ensures |r| <= size
    ensures (p - 1) * size <= |s| ==> r == s[(p - 1) * size..Min(p * size, |s|)]
    ensures p <= TotalPages(|s|, size) ==> |r| > 0
  {
    Slice(s, (p - 1) * size, (p - 1) * size + size)
  }

  function Flatten<T>(pages: seq<seq<T>>): seq<T> {
    if |pages| == 0 then [] else pages[0] + Flatten(pages[1..])
  }

  /** Pages `first` to `last`, in order. */
  function Pages<T>(s: seq<T>, size: nat, first: nat, last: nat): (pp: seq<seq<T>>)
    requires first >= 1 && size > 0
    ensures |pp| == if first <= last then last - first + 1 else 0
    decreases last + 1 - first
  {
    if first > last then [] else [PageOf(s, first, size)] + Pages(s, size, first + 1, last)
  }

  /** Pages `from..t` of a list with `t` pages read back as the list from page `from`'s
      first element on. */
  lemma {:induction false} PagesFrom<T>(s: seq<T>, size: nat, from: nat, t: nat)
    requires from >= 1 && size > 0
    requires t * size >= |s| && (t > 0 ==> (t - 1) * size < |s|)
    requires from <= t + 1
    ensures Flatten(Pages(s, size, from, t)) == s[Min((from - 1) * size, |s|)..]
    decreases t + 1 - from
  {
    if from > t {
      assert (from - 1) * size == t * size;
    } else {
      PagesFrom(s, size, from + 1, t);
      PageStep(s, size, from, t);
    }
  }

  /** Page `from` followed by everything after it is everything from page `from` on. */
  lemma PageStep<T>(s: seq<T>, size: nat, from: nat, t: nat)
    requires 1 <= from <= t && size > 0
    requires (t - 1) * size < |s|
    ensures PageOf(s, from, size) + s[Min(from * size, |s|)..] == s[Min((from - 1) * size, |s|)..]
  {
    var start := (from - 1) * size;
    assert from * size == start + size;
    assert start < |s| by {
      MulMonotone(from - 1, t - 1, size);
    }
    var m := Min(from * size, |s|);
    assert PageOf(s, from, size) == s[start..m];
    assert Min(start, |s|) == start;
    assert s[start..m] + s[m..] == s[start..];
  }

  lemma MulMonotone(a: nat, b: nat, c: nat)
    requires a <= b
    ensures a * c <= b * c
  {
  }

  /** The pages, read one after another, give back the whole list: nothing is lost,
      repeated or reordered. */
  lemma PagesPartition<T>(s: seq<T>, size: nat)
    requires size > 0
    ensures Flatten(Pages(s, size, 1, TotalPages(|s|, size))) == s
  {
    PagesFrom(s, size, 1, TotalPages(|s|, size));
  }

  /** One entry of the page-link row. */
  datatype Link = Number(page: nat, active: bool) | Ellipsis | Hidden

  /** The entry drawn for page `num`: a number for the first and last pages and for the
      pages within two of the current one, an ellipsis exactly three away, nothing else. */
  function LinkFor(num: nat, current: nat, total: nat): (l: Link)
    ensures l.Number? <==> num == 1 || num == total || (current - 2 <= num <= current + 2)
    ensures l.Number? ==> l.page == num && (l.active <==> num == current)
    ensures l == Ellipsis <==> !l.Number? && (num == current - 3 || num == current + 3)
  {
    if num == 1 || num == total || (num >= current - 2 && num <= current + 2) then Number(num, current == num)
    else if num == current - 3 || num == current + 3 then Ellipsis
    else Hidden
  }

  /** The whole row for pages `1..total`. */
  function Window(current: nat, total: nat): (w: seq<Link>)
    ensures |w| == total
    ensures forall k :: 0 <= k < total ==> w[k] == LinkFor(k + 1, current, total)
  {
    seq(total, k requires 0 <= k => LinkFor(k + 1, current, total))
  }

  /** With the current page in range, the current page is always a number, and every
      page left out has an ellipsis on its side of the current page. */
  lemma WindowMarksGaps(current: nat, total: nat, hidden: nat)
    requires 1 <= current <= total
    requires 1 <= hidden <= total && LinkFor(hidden, current, total) == Hidden
    ensures LinkFor(current, current, total) == Number(current, true)
    ensures hidden < current ==> 1 < current - 3 && hidden <= current - 3 && LinkFor(current - 3, current, total) == Ellipsis
    ensures hidden > current ==> current + 3 < total && hidden >= current + 3 && LinkFor(current + 3, current, total) == Ellipsis
  {
  }
}

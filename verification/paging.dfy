/** Sequence slicing with Python's semantics, fixed-size pages, first-occurrence
    search and element-wise mapping: the list handling the handlers share. */
module Paging {

  /** A page size: configured, and always positive. */
  type Pos = n: nat | 0 < n witness 1

  function Min(a: nat, b: nat): nat
  {
    if a <= b then a else b
  }

  /** Python's `xs[lo:hi]` for non-negative bounds: both bounds are clamped to
      the length, and a range that ends before it starts is empty. */
  function Slice<T>(xs: seq<T>, lo: nat, hi: nat): (r: seq<T>)
    ensures forall i :: 0 <= i < |r| ==> lo + i < |xs| && r[i] == xs[lo + i]
    ensures lo < hi && lo < |xs| ==> |r| == Min(hi, |xs|) - lo
    ensures hi <= lo || |xs| <= lo ==> r == []
  {
    var a := Min(lo, |xs|);
    var b := Min(hi, |xs|);
    if a < b then xs[a..b] else []
  }

  /** The page of `size` elements starting at `start`: `xs[start:start + size]`. */
  function Page<T>(xs: seq<T>, start: nat, size: Pos): (r: seq<T>)
    ensures |r| <= size
    ensures forall i :: 0 <= i < |r| ==> start + i < |xs| && r[i] == xs[start + i]
    ensures r == [] <==> |xs| <= start
    // a page is only ever short when it runs to the end of the list
    ensures |r| == size || |xs| <= start + |r|
  {
    Slice(xs, start, start + size)
  }

  /** A page holds `size` elements, or what is left of the list if that is fewer. */
  lemma PageLength<T>(xs: seq<T>, start: nat, size: Pos)
    ensures |Page(xs, start, size)| == if start < |xs| then Min(size, |xs| - start) else 0
  {
  }

  /** A page is the contiguous run of the list it starts at. */
  lemma PageIsRun<T>(xs: seq<T>, start: nat, size: Pos)
    ensures start + |Page(xs, start, size)| <= |xs| || Page(xs, start, size) == []
    ensures start <= |xs| ==> Page(xs, start, size) == xs[start..start + |Page(xs, start, size)|]
  {
  }

  /** The concatenation of the first `k` pages, at offsets 0, size, ..., (k - 1) * size. */
  function Pages<T>(xs: seq<T>, size: Pos, k: nat): seq<T>
  {
    if k == 0 then [] else Pages(xs, size, k - 1) + Page(xs, (k - 1) * size, size)
  }

  /** How many pages it takes to hold `n` elements. */
  function PageCount(n: nat, size: Pos): nat
  {
    (n + size - 1) / size
  }

  lemma PageCountBounds(n: nat, size: Pos)
    ensures n <= PageCount(n, size) * size
    ensures 0 < n ==> 0 < PageCount(n, size) && (PageCount(n, size) - 1) * size < n
  {
    var q := PageCount(n, size);
    var r := (n + size - 1) % size;
    assert n + size - 1 == q * size + r;
    assert (q - 1) * size == q * size - size;
  }

  /** The first `k` pages, laid end to end, are exactly the prefix of `xs` they cover. */
  lemma {:induction false} PagesArePrefix<T>(xs: seq<T>, size: Pos, k: nat)
    ensures Pages(xs, size, k) == xs[..Min(k * size, |xs|)]
  {
    if k > 0 {
      PagesArePrefix(xs, size, k - 1);
      var lo := Min((k - 1) * size, |xs|);
      var hi := Min(k * size, |xs|);
      assert (k - 1) * size + size == k * size;
      assert Page(xs, (k - 1) * size, size) == xs[lo..hi];
      assert xs[..lo] + xs[lo..hi] == xs[..hi];
    }
  }

  /** Pages at offsets 0, size, 2 * size, ... partition the whole list: their
      concatenation is the list, with no element lost or repeated. */
  lemma PagesCoverAll<T>(xs: seq<T>, size: Pos)
    ensures Pages(xs, size, PageCount(|xs|, size)) == xs
  {
    PageCountBounds(|xs|, size);
    PagesArePrefix(xs, size, PageCount(|xs|, size));
  }

  /** Every page from the `PageCount`-th on is empty. */
  lemma PagesPastEndAreEmpty<T>(xs: seq<T>, size: Pos, k: nat)
    requires PageCount(|xs|, size) <= k
    ensures Page(xs, k * size, size) == []
  {
    PageCountBounds(|xs|, size);
    assert PageCount(|xs|, size) * size <= k * size;
  }

  /** Euclidean division has a unique quotient and remainder. */
  lemma ModUnique(n: nat, a: nat, t: nat, size: Pos)
    requires n == a * size + t && t < size
    ensures n % size == t
  {
    var d := n / size;
    var m := n % size;
    assert n == d * size + m;
    assert (d - a) * size == t - m by {
      assert (d - a) * size == d * size - a * size;
    }
    MultipleBelowSize(d - a, size, t - m);
  }

  /** The only multiple of `size` strictly between `-size` and `size` is 0. */
  lemma MultipleBelowSize(k: int, size: Pos, v: int)
    requires k * size == v && -(size as int) < v < size
    ensures k == 0
  {
  }

  /** The last non-empty page holds the remainder, or a full page when the
      length is a multiple of the page size. */
  lemma LastPageHoldsRemainder<T>(xs: seq<T>, size: Pos)
    requires 0 < |xs|
    ensures 0 < PageCount(|xs|, size)
    ensures |Page(xs, (PageCount(|xs|, size) - 1) * size, size)|
            == if |xs| % size == 0 then size else |xs| % size
  {
    PageCountBounds(|xs|, size);
    var n := |xs|;
    var q := PageCount(n, size);
    var start := (q - 1) * size;
    assert q * size == start + size;
    var t := n - start;
    assert 0 < t <= size;
    assert |Page(xs, start, size)| == t;
    if t == size {
      ModUnique(n, q, 0, size);
    } else {
      ModUnique(n, q - 1, t, size);
    }
  }

  /** `[f(x) for x in xs]`, built by appending one element at a time as the
      handlers' loops do. */
  function MapAll<A, B>(xs: seq<A>, f: A -> B): (r: seq<B>)
    ensures |r| == |xs|
    ensures forall i :: 0 <= i < |xs| ==> r[i] == f(xs[i])
  {
    if xs == [] then [] else MapAll(xs[..|xs| - 1], f) + [f(xs[|xs| - 1])]
  }

  /** The parts laid end to end. */
  function Flatten<V>(parts: seq<seq<V>>): seq<V>
  {
    if parts == [] then [] else Flatten(parts[..|parts| - 1]) + parts[|parts| - 1]
  }

  /** Part `j` is the run of `xs` between positions `j` and `j + 1`. */
  ghost predicate IsRun<V>(parts: seq<seq<V>>, pos: seq<nat>, xs: seq<V>, j: nat)
    requires j < |parts| && |pos| == |parts| + 1
  {
    pos[j] <= pos[j + 1] <= |xs| && parts[j] == xs[pos[j]..pos[j + 1]]
  }

  /** If each part is the run of `xs` between two consecutive positions, the
      parts laid end to end are the prefix of `xs` up to the last position. */
  lemma {:induction false} FlattenRuns<V>(parts: seq<seq<V>>, pos: seq<nat>, xs: seq<V>)
    requires |pos| == |parts| + 1 && pos[0] == 0
    requires forall j: nat :: j < |parts| ==> IsRun(parts, pos, xs, j)
    ensures pos[|parts|] <= |xs|
    ensures Flatten(parts) == xs[..pos[|parts|]]
  {
    var n := |parts|;
    if n > 0 {
      assert IsRun(parts, pos, xs, n - 1);
      var front, marks := parts[..n - 1], pos[..n];
      forall j: nat | j < n - 1
        ensures IsRun(front, marks, xs, j)
      {
        assert IsRun(parts, pos, xs, j);
      }
      FlattenRuns(front, marks, xs);
      assert xs[..pos[n - 1]] + xs[pos[n - 1]..pos[n]] == xs[..pos[n]];
    }
  }

  /** Python's `xs.index(x)`: the position of the first occurrence. */
  function IndexOf<T(==)>(xs: seq<T>, x: T): (i: nat)
    requires x in xs
    ensures i < |xs| && xs[i] == x
    ensures forall j :: 0 <= j < i ==> xs[j] != x
  {
    if xs[0] == x then 0 else 1 + IndexOf(xs[1..], x)
  }

  /** Where a page that follows the cursor starts: just after the cursor's
      first occurrence, or at the beginning when the cursor is absent. */
  function CursorStart<T(==)>(xs: seq<T>, cursor: T): (s: nat)
    ensures s <= |xs|
    ensures cursor in xs <==> 0 < s
    ensures cursor in xs ==> xs[s - 1] == cursor && forall j :: 0 <= j < s - 1 ==> xs[j] != cursor
  {
    if cursor in xs then IndexOf(xs, cursor) + 1 else 0
  }

  predicate Distinct<T(==)>(xs: seq<T>)
  {
    forall i, j :: 0 <= i < j < |xs| ==> xs[i] != xs[j]
  }

  /** In a list without repetitions, the cursor at position `k` resumes at `k + 1`. */
  lemma CursorStartDistinct<T>(xs: seq<T>, k: nat)
    requires Distinct(xs)
    requires k < |xs|
    ensures CursorStart(xs, xs[k]) == k + 1
  {
  }
}

/** The client-side list engine every list page repeats: keep the records a
    filter predicate accepts, cut the kept list into pages of a fixed size, and
    compute the numbers of the "Showing X to Y of Z" line. */
module ListEngine {
  import opened Common

  /** `itemsPerPage` on every list page. */
  const PageSize: nat := 10

  /** `xs.filter(keep)`. */
  function Filter<T(!new)>(xs: seq<T>, keep: T -> bool): (r: seq<T>)
    ensures |r| <= |xs|
    ensures forall x :: x in r <==> x in xs && keep(x)
    ensures forall x :: multiset(r)[x] == if keep(x) then multiset(xs)[x] else 0
  {
    if xs == [] then []
    else
      var rest := Filter(xs[1..], keep);
      assert xs == [xs[0]] + xs[1..];
      if keep(xs[0]) then [xs[0]] + rest else rest
  }

  /** `a` is `b` with some elements left out and the rest in their original order. */
  ghost predicate IsSubsequence<T>(a: seq<T>, b: seq<T>)
    decreases |b|
  {
    if a == [] then true
    else if b == [] then false
    else (a[0] == b[0] && IsSubsequence(a[1..], b[1..])) || IsSubsequence(a, b[1..])
  }

  /** Filtering keeps the order of the records it keeps. */
  lemma {:induction false} FilterIsSubsequence<T(!new)>(xs: seq<T>, keep: T -> bool)
    ensures IsSubsequence(Filter(xs, keep), xs)
  {
    if xs != [] {
      var rest := Filter(xs[1..], keep);
      FilterIsSubsequence(xs[1..], keep);
      if keep(xs[0]) {
        var r := [xs[0]] + rest;
        assert r[0] == xs[0] && r[1..] == rest;
      } else if rest != [] {
        assert IsSubsequence(rest, xs[1..]);
      }
    }
  }

  /** A filter that accepts every record keeps the whole list. */
  lemma {:induction false} FilterKeepAll<T(!new)>(xs: seq<T>, keep: T -> bool)
    requires forall x :: x in xs ==> keep(x)
    ensures Filter(xs, keep) == xs
  {
    if xs != [] {
      FilterKeepAll(xs[1..], keep);
      assert [xs[0]] + xs[1..] == xs;
    }
  }

  /** `xs.find(p)`: the first element `p` accepts, if any. */
  function FindFirst<T>(xs: seq<T>, p: T -> bool): (r: Option<T>)
    ensures r.None? <==> forall i :: 0 <= i < |xs| ==> !p(xs[i])
    ensures r.Some? ==> exists i :: 0 <= i < |xs| && xs[i] == r.value && p(xs[i])
                                    && forall j :: 0 <= j < i ==> !p(xs[j])
  {
    if xs == [] then None
    else if p(xs[0]) then Some(xs[0])
    else
      var r := FindFirst(xs[1..], p);
      assert forall i :: 1 <= i < |xs| ==> xs[i] == xs[1..][i - 1];
      r
  }

  /** `Math.ceil(count / size)`: the fewest pages of `size` rows that hold `count` rows. */
  function TotalPages(count: nat, size: nat): (r: nat)
    requires size > 0
    ensures r * size >= count
    ensures r > 0 ==> (r - 1) * size < count
    ensures r == 0 <==> count == 0
  {
    var c := CeilDiv(count, size);
    NonNegativeFactor(c, size);
    assert c == 0 ==> count == 0;
    c
  }

  lemma NonNegativeFactor(c: int, size: int)
    requires size > 0 && c * size >= 0
    ensures c >= 0
  {
  }

  /** Index of the first row of a 1-based page. */
  function PageStart(page: nat, size: nat): nat
    requires page >= 1
  {
    (page - 1) * size
  }

  /** `xs.slice(startIndex, startIndex + size)` with `startIndex = (page - 1) * size`;
      like `slice`, a start past the end gives no rows and the end is clamped. */
  function PageSlice<T>(xs: seq<T>, page: nat, size: nat): (r: seq<T>)
    requires page >= 1
    ensures |r| <= size
    ensures forall j :: 0 <= j < |r| ==> PageStart(page, size) + j < |xs| && r[j] == xs[PageStart(page, size) + j]
    ensures |r| == Max(0, Min(PageStart(page, size) + size, |xs|) - PageStart(page, size))
  {
    var start := PageStart(page, size);
    if start >= |xs| then [] else xs[start..Min(start + size, |xs|)]
  }

  /** Every row lies on exactly one page within `TotalPages`: row `i` is row
      `i % size` of page `i / size + 1`. */
  lemma RowOnItsPage<T>(xs: seq<T>, size: nat, i: nat)
    requires size > 0 && i < |xs|
    ensures 1 <= i / size + 1 <= TotalPages(|xs|, size)
    ensures var p := PageSlice(xs, i / size + 1, size);
            i % size < |p| && p[i % size] == xs[i]
  {
    var q := i / size;
    var t := TotalPages(|xs|, size);
    assert i == q * size + i % size;
    assert q * size <= i < |xs|;
    if q + 1 > t {
      assert t * size <= q * size by { LeMulMonotone(t, q, size); }
      assert false;
    }
  }

  lemma LeMulMonotone(a: nat, b: nat, c: nat)
    requires a <= b
    ensures a * c <= b * c
  {
  }

  /** Pages after the last one are empty. */
  lemma PastLastPageIsEmpty<T>(xs: seq<T>, size: nat, page: nat)
    requires size > 0 && page > TotalPages(|xs|, size)
    ensures PageSlice(xs, page, size) == []
  {
    var t := TotalPages(|xs|, size);
    LeMulMonotone(t, page - 1, size);
  }

  /** Every page before the last one is full. */
  lemma EarlierPagesAreFull<T>(xs: seq<T>, size: nat, page: nat)
    requires size > 0 && 1 <= page < TotalPages(|xs|, size)
    ensures |PageSlice(xs, page, size)| == size
  {
    var t := TotalPages(|xs|, size);
    LeMulMonotone(page, t - 1, size);
  }

  /** X of "Showing X to Y of Z": 0 for an empty list, else the 1-based number of the page's first row. */
  function ShowingFrom(count: nat, page: nat, size: nat): int
    requires page >= 1
  {
    if count == 0 then 0 else PageStart(page, size) + 1
  }

  /** Y of "Showing X to Y of Z": the 1-based number of the page's last row, clamped to the total. */
  function ShowingTo(count: nat, page: nat, size: nat): int
    requires page >= 1
  {
    Min(page * size, count)
  }

  /** When the total is the length of the list that is paged and the page exists,
      X to Y numbers exactly the rows of the page. */
  lemma ShowingMatchesSlice<T>(xs: seq<T>, page: nat, size: nat)
    requires size > 0 && 1 <= page <= TotalPages(|xs|, size)
    ensures 1 <= ShowingFrom(|xs|, page, size) <= ShowingTo(|xs|, page, size) <= |xs|
    ensures ShowingTo(|xs|, page, size) - ShowingFrom(|xs|, page, size) + 1 == |PageSlice(xs, page, size)|
  {
    var t := TotalPages(|xs|, size);
    LeMulMonotone(page - 1, t - 1, size);
    assert page * size == (page - 1) * size + size;
  }

  /** An empty total reads "Showing 0 to 0 of 0". */
  lemma ShowingEmpty(page: nat, size: nat)
    requires page >= 1
    ensures ShowingFrom(0, page, size) == 0 && ShowingTo(0, page, size) == 0
  {
  }

  /** What a list page shows for one state: the rows of the current page of the
      filtered list, the page count of the filtered list, and the "Showing X to Y
      of Z" numbers, which the pages compute from a separately loaded total. */
  datatype Listing<T> = Listing(rows: seq<T>, totalPages: nat, from: int, to: int, total: nat)

  /** The listing of an already filtered list on page `page`. */
  function ListPage<T>(kept: seq<T>, page: nat, total: nat): (l: Listing<T>)
    requires page >= 1
    ensures |l.rows| <= PageSize
    ensures forall j :: 0 <= j < |l.rows| ==>
      PageStart(page, PageSize) + j < |kept| && l.rows[j] == kept[PageStart(page, PageSize) + j]
    ensures l.totalPages == 0 <==> kept == []
    ensures l.total == total
    ensures l.from == 0 <==> total == 0
    ensures l.to <= total
    ensures l.rows == PageSlice(kept, page, PageSize)
    ensures |l.rows| == Max(0, Min(PageStart(page, PageSize) + PageSize, |kept|) - PageStart(page, PageSize))
    ensures l.totalPages == TotalPages(|kept|, PageSize)
    ensures l.from == ShowingFrom(total, page, PageSize) && l.to == ShowingTo(total, page, PageSize)
  {
    Listing(PageSlice(kept, page, PageSize), TotalPages(|kept|, PageSize),
            ShowingFrom(total, page, PageSize), ShowingTo(total, page, PageSize), total)
  }
}

/** Paging arithmetic: the ordering, the page slice and the page metadata of a listing. */
module Paging {

  /** Keys never increase from one element to a later one. */
  predicate SortedDesc<T>(xs: seq<T>, key: T -> int) {
    forall i, j :: 0 <= i < j < |xs| ==> key(xs[i]) >= key(xs[j])
  }

  /** A head no smaller than every key of a sorted tail gives a sorted sequence. */
  lemma ConsSorted<T>(h: T, rest: seq<T>, key: T -> int)
    requires SortedDesc(rest, key)
    requires forall j :: 0 <= j < |rest| ==> key(rest[j]) <= key(h)
    ensures SortedDesc([h] + rest, key)
  {
    var r := [h] + rest;
    forall i, j | 0 <= i < j < |r|
      ensures key(r[i]) >= key(r[j])
    {
      assert r[j] == rest[j - 1];
      if i > 0 {
        assert r[i] == rest[i - 1];
      }
    }
  }

  /** Every element of a sequence holding x and the elements of others is bounded when they are. */
  lemma BoundedByMultiset<T>(rest: seq<T>, others: seq<T>, x: T, bound: int, key: T -> int)
    requires multiset(rest) == multiset(others) + multiset{x}
    requires key(x) <= bound
    requires forall i :: 0 <= i < |others| ==> key(others[i]) <= bound
    ensures forall j :: 0 <= j < |rest| ==> key(rest[j]) <= bound
  {
    forall j | 0 <= j < |rest|
      ensures key(rest[j]) <= bound
    {
      var y := rest[j];
      assert y in multiset(rest);
      if y != x {
        assert y in multiset(others);
        assert y in others;
        var k :| 0 <= k < |others| && others[k] == y;
      }
    }
  }

  /** Inserts x after the elements with a larger key, ahead of those with an equal one. */
  function InsertDesc<T>(x: T, xs: seq<T>, key: T -> int): (r: seq<T>)
    requires SortedDesc(xs, key)
    ensures multiset(r) == multiset(xs) + multiset{x}
    ensures SortedDesc(r, key)
    decreases |xs|
  {
    if xs == [] || key(xs[0]) <= key(x) then
      ConsSorted(x, xs, key);
      [x] + xs
    else
      var rest := InsertDesc(x, xs[1..], key);
      assert xs == [xs[0]] + xs[1..];
      assert forall i :: 0 <= i < |xs[1..]| ==> key(xs[1..][i]) <= key(xs[0]) by {
        forall i | 0 <= i < |xs[1..]| ensures key(xs[1..][i]) <= key(xs[0]) {
          assert xs[1..][i] == xs[i + 1];
        }
      }
      BoundedByMultiset(rest, xs[1..], x, key(xs[0]), key);
      ConsSorted(xs[0], rest, key);
      [xs[0]] + rest
  }

  /**
   * OrderByDescending: the same elements, largest key first. Among equal keys this insertion
   * sort keeps the input order, which is one of the orders the query allows.
   */
  function SortDesc<T>(xs: seq<T>, key: T -> int): (r: seq<T>)
    ensures multiset(r) == multiset(xs) && |r| == |xs|
    ensures SortedDesc(r, key)
    decreases |xs|
  {
    if xs == [] then []
    else
      assert xs == [xs[0]] + xs[1..];
      InsertDesc(xs[0], SortDesc(xs[1..], key), key)
  }

  /** How many rows precede the page. */
  function Skip(pageNumber: int, pageSize: int): (n: int)
    requires pageNumber >= 1 && pageSize >= 1
    ensures n >= 0
  {
    (pageNumber - 1) * pageSize
  }

  /** Skip then Take: at most pageSize rows starting at the page's first index. */
  function PageSlice<T>(ordered: seq<T>, pageNumber: int, pageSize: int): (r: seq<T>)
    requires pageNumber >= 1 && pageSize >= 1
    ensures |r| <= pageSize
    ensures Skip(pageNumber, pageSize) >= |ordered| ==> r == []
    ensures Skip(pageNumber, pageSize) + pageSize <= |ordered| ==> |r| == pageSize
    ensures Skip(pageNumber, pageSize) < |ordered| < Skip(pageNumber, pageSize) + pageSize ==>
      |r| == |ordered| - Skip(pageNumber, pageSize)
    ensures forall i :: 0 <= i < |r| ==>
      Skip(pageNumber, pageSize) + i < |ordered| && r[i] == ordered[Skip(pageNumber, pageSize) + i]
  {
    var skip := Skip(pageNumber, pageSize);
    if skip >= |ordered| then []
    else if skip + pageSize <= |ordered| then ordered[skip..skip + pageSize]
    else ordered[skip..]
  }

  /** A page of a sorted sequence is sorted and holds only elements of the sequence. */
  lemma PageOfSorted<T>(ordered: seq<T>, pageNumber: int, pageSize: int, key: T -> int)
    requires pageNumber >= 1 && pageSize >= 1
    requires SortedDesc(ordered, key)
    ensures SortedDesc(PageSlice(ordered, pageNumber, pageSize), key)
    ensures forall x :: x in PageSlice(ordered, pageNumber, pageSize) ==> x in ordered
  {
    var page := PageSlice(ordered, pageNumber, pageSize);
    var skip := Skip(pageNumber, pageSize);
    forall i, j | 0 <= i < j < |page|
      ensures key(page[i]) >= key(page[j])
    {
      assert page[i] == ordered[skip + i] && page[j] == ordered[skip + j];
    }
    forall x | x in page
      ensures x in ordered
    {
      var i :| 0 <= i < |page| && page[i] == x;
      assert ordered[skip + i] == x;
    }
  }

  /** Integer ceiling of n / d, which is what Math.Ceiling of the double quotient gives here. */
  function CeilDiv(n: int, d: int): (q: int)
    requires n >= 0 && d > 0
    ensures q >= 0
    ensures n == 0 ==> q == 0
    ensures n > 0 ==> (q - 1) * d < n <= q * d
  {
    var q := (n + d - 1) / d;
    var rem := (n + d - 1) % d;
    assert n + d - 1 == q * d + rem && 0 <= rem < d;
    assert q * d == n + d - 1 - rem;
    assert (q - 1) * d == q * d - d;
    q
  }

  /** Multiplying by a positive number keeps the order. */
  lemma MulMonotone(a: int, b: int, d: int)
    requires a <= b && d > 0
    ensures a * d <= b * d
  {
    assert b * d - a * d == (b - a) * d;
  }

  /** Below the page count exactly when the pages before and including p hold fewer rows than n. */
  lemma BelowPageCount(n: int, d: int, p: int)
    requires n >= 0 && d > 0
    ensures p < CeilDiv(n, d) <==> p * d < n
  {
    var q := CeilDiv(n, d);
    if p < q {
      MulMonotone(p, q - 1, d);
    } else {
      MulMonotone(q, p, d);
      if n == 0 {
        MulMonotone(0, p, d);
      }
    }
  }

  /** The page metadata sent with a listing. */
  datatype PagedResponse<T> = PagedResponse(
    currentPage: int, pageSize: int, totalPages: int, totalCount: int,
    hasPrevious: bool, hasNext: bool, data: seq<T>)

  /**
   * The PagedResponse constructor: page number, size, count and data as passed, the page
   * count rounded up, a previous page after page 1 and a next page before the last.
   */
  function NewPagedResponse<T>(data: seq<T>, pageNumber: int, pageSize: int, totalCount: int): (r: PagedResponse<T>)
    requires pageSize > 0 && totalCount >= 0
    ensures r.currentPage == pageNumber && r.pageSize == pageSize
    ensures r.totalCount == totalCount && r.data == data
    ensures totalCount == 0 ==> r.totalPages == 0
    ensures totalCount == 0 && pageNumber >= 0 ==> !r.hasNext
    ensures totalCount > 0 ==> (r.totalPages - 1) * pageSize < totalCount <= r.totalPages * pageSize
    ensures r.hasPrevious <==> pageNumber > 1
    ensures r.hasNext <==> pageNumber < r.totalPages
    ensures r.hasNext <==> pageNumber * pageSize < totalCount
  {
    var totalPages := CeilDiv(totalCount, pageSize);
    BelowPageCount(totalCount, pageSize, pageNumber);
    PagedResponse(pageNumber, pageSize, totalPages, totalCount, pageNumber > 1, pageNumber < totalPages, data)
  }
}

/**
 * The sales repository over the Sales table, kept in memory as the list of tracked sale
 * entities in table order. Writes to a tracked sale are applied to that list directly.
 */
module SaleRepositories {
  import opened Outcomes
  import opened Sales
  import opened Paging

  /** The items of one page and the number of all rows. */
  datatype PagedResult<T> = PagedResult(items: seq<T>, totalCount: int)

  /** The first sale in the list with that id. */
  function FindById(sales: seq<Sale>, id: int): (r: Option<Sale>)
    reads sales
    ensures r.Some? ==> r.value in sales && r.value.id == id
    ensures r.None? <==> forall s :: s in sales ==> s.id != id
    decreases |sales|
  {
    if sales == [] then None
    else if sales[0].id == id then Some(sales[0])
    else FindById(sales[1..], id)
  }

  /** The ordering key of a listing. */
  function CreatedAt(s: Sale): int {
    s.createdAt
  }

  /** Pages below 1 become 1 and sizes below 1 become 20; there is no upper bound here. */
  function ClampPage(pageNumber: int, pageSize: int): (r: (int, int))
    ensures r.0 >= 1 && r.1 >= 1
    ensures r.0 == (if pageNumber < 1 then 1 else pageNumber)
    ensures r.1 == (if pageSize < 1 then 20 else pageSize)
  {
    (if pageNumber < 1 then 1 else pageNumber, if pageSize < 1 then 20 else pageSize)
  }

  class SaleRepository {
    var sales: seq<Sale>
    /** How many times the context's changes were saved. */
    var saves: nat

    /** Ids are unique and every stored sale keeps its total equal to its items' sum. */
    ghost predicate Valid()
      reads this`sales, sales
    {
      && (forall i, j :: 0 <= i < j < |sales| ==> sales[i].id != sales[j].id)
      && (forall s :: s in sales ==> s.Valid())
    }

    /** Opens over a Sales table that may already hold sales with unique ids. */
    constructor (initial: seq<Sale>)
      requires forall i, j :: 0 <= i < j < |initial| ==> initial[i].id != initial[j].id
      requires forall s :: s in initial ==> s.Valid()
      ensures sales == initial && saves == 0
      ensures Valid()
    {
      sales := initial;
      saves := 0;
    }

    /** SaveChangesAsync: one more save of the tracked changes. */
    method SaveChanges()
      modifies this`saves
      ensures saves == old(saves) + 1
    {
      saves := saves + 1;
    }

    /** GetByIdAsync: the sale with that id, or none (null) when there is none. */
    function GetById(id: int): (r: Option<Sale>)
      reads this`sales, sales
      ensures r.Some? ==> r.value in sales && r.value.id == id
      ensures r.None? <==> forall s :: s in sales ==> s.id != id
    {
      FindById(sales, id)
    }

    /** AddAsync: tracks the sale under the identity the store generates (an input, unused so far). */
    method Add(sale: Sale, newId: int)
      requires Valid() && sale.Valid()
      requires sale !in sales
      requires forall s :: s in sales ==> s.id != newId
      modifies this`sales, sale`id
      ensures sales == old(sales) + [sale] && sale.id == newId
      ensures Valid()
      ensures GetById(newId) == Some(sale)
    {
      ghost var before := sales;
      sale.id := newId;
      sales := sales + [sale];
      forall i, j | 0 <= i < j < |sales|
        ensures sales[i].id != sales[j].id
      {
        assert sales[i] == before[i];
        if j < |before| {
          assert sales[j] == before[j];
        }
      }
      assert FindById(before, newId) == None;
      FindAfterMiss(before, [sale], newId);
    }

    /**
     * GetSalesAsync: clamps the page, counts every sale, orders all sales by creation time,
     * newest first, and returns the requested slice of that order.
     */
    function GetSales(pageNumber: int, pageSize: int): (r: PagedResult<Sale>)
      reads this
      ensures r.totalCount == |sales|
      ensures var (p, n) := ClampPage(pageNumber, pageSize);
        r.items == PageSlice(SortDesc(sales, CreatedAt), p, n)
      ensures |r.items| <= ClampPage(pageNumber, pageSize).1
      ensures forall s :: s in r.items ==> s in sales
      ensures SortedDesc(r.items, CreatedAt)
    {
      var (p, n) := ClampPage(pageNumber, pageSize);
      var ordered := SortDesc(sales, CreatedAt);
      var page := PageSlice(ordered, p, n);
      PageOfSorted(ordered, p, n, CreatedAt);
      forall s | s in page
        ensures s in sales
      {
        assert s in multiset(ordered);
      }
      PagedResult(page, |sales|)
    }
  }

  /** Looking past a prefix that has no such id finds what the rest has. */
  lemma {:induction false} FindAfterMiss(front: seq<Sale>, back: seq<Sale>, id: int)
    requires FindById(front, id) == None
    ensures FindById(front + back, id) == FindById(back, id)
    decreases |front|
  {
    if front != [] {
      assert (front + back)[1..] == front[1..] + back;
      FindAfterMiss(front[1..], back, id);
    } else {
      assert front + back == back;
    }
  }
}

/**
 * The sales listing endpoint: the service's page wrapped in the page metadata. As written,
 * the metadata is computed from the requested page number and size, while the rows were
 * picked with the clamped ones.
 */
module SalesListings {
  import opened Sales
  import opened SaleRepositories
  import opened Paging
  import opened SaleServices

  /** The endpoint's answer: not found for an empty page, otherwise the page with its metadata. */
  datatype ListResponse = NotFound | Ok(response: PagedResponse<Sale>)

  /**
   * The listing as written: the service clamps the page, but the metadata is built from the
   * requested number and size. A size below 1 is not covered: size 0 makes the page count an
   * unspecified cast of an infinite or NaN quotient, and a negative size gives a page count
   * of zero or below.
   */
  function ListSalesAsWritten(service: SaleService, pageNumber: int, pageSize: int): (r: ListResponse)
    requires pageSize >= 1
    reads service.repo
    ensures var result := service.GetSales(pageNumber, pageSize);
      && (r.NotFound? <==> result.items == [])
      && (r.Ok? ==> r.response.data == result.items && r.response.totalCount == |service.repo.sales|)
      && (r.Ok? ==> r.response.currentPage == pageNumber && r.response.pageSize == pageSize)
  {
    var result := service.GetSales(pageNumber, pageSize);
    if result.items == [] then NotFound
    else Ok(NewPagedResponse(result.items, pageNumber, pageSize, result.totalCount))
  }

  /**
   * A page size above 100 is replaced by 20 when the rows are picked but reported as asked:
   * with more than 20 and at most pageSize sales, page 1 holds 20 sales while the metadata
   * says it is the only page and that there is no next one.
   */
  lemma AsWrittenMisreportsOversizedPage(service: SaleService, pageSize: int)
    requires pageSize > 100 && 20 < |service.repo.sales| <= pageSize
    ensures var r := ListSalesAsWritten(service, 1, pageSize);
      && r.Ok?
      && |r.response.data| == 20 < r.response.totalCount
      && r.response.totalPages == 1
      && !r.response.hasNext
  {
    var result := service.GetSales(1, pageSize);
    assert ServicePage(1, pageSize) == (1, 20);
    assert |SortDesc(service.repo.sales, CreatedAt)| == |service.repo.sales|;
    assert |result.items| == 20;
  }

  /** The listing with the metadata built from the page number and size the rows were picked with. */
  function ListSales(service: SaleService, pageNumber: int, pageSize: int): (r: ListResponse)
    reads service.repo
    ensures var result := service.GetSales(pageNumber, pageSize);
      && (r.NotFound? <==> result.items == [])
      && (r.Ok? ==> r.response.data == result.items && r.response.totalCount == |service.repo.sales|)
      && (r.Ok? ==> (r.response.currentPage, r.response.pageSize) == ServicePage(pageNumber, pageSize))
  {
    var (p, n) := ServicePage(pageNumber, pageSize);
    var result := service.GetSales(pageNumber, pageSize);
    if result.items == [] then NotFound
    else Ok(NewPagedResponse(result.items, p, n, result.totalCount))
  }

  /**
   * The corrected metadata is honest: there is a next page exactly when sales remain after
   * the ones on this page, and the page is within the page count.
   */
  lemma ListSalesReportsNextHonestly(service: SaleService, pageNumber: int, pageSize: int)
    ensures var r := ListSales(service, pageNumber, pageSize);
      r.Ok? ==>
        && (r.response.hasNext <==>
              Skip(r.response.currentPage, r.response.pageSize) + |r.response.data| < r.response.totalCount)
        && 1 <= r.response.currentPage <= r.response.totalPages
  {
    var r := ListSales(service, pageNumber, pageSize);
    if r.Ok? {
      var (p, n) := ServicePage(pageNumber, pageSize);
      var ordered := SortDesc(service.repo.sales, CreatedAt);
      var total := |service.repo.sales|;
      assert |ordered| == total;
      var skip := Skip(p, n);
      assert skip < total;
      assert skip + n == p * n;
      BelowPageCount(total, n, p - 1);
    }
  }

  /** Inside the accepted range the written listing and the corrected one agree. */
  lemma AsWrittenAgreesInRange(service: SaleService, pageNumber: int, pageSize: int)
    requires pageNumber >= 1 && 1 <= pageSize <= 100
    ensures ListSalesAsWritten(service, pageNumber, pageSize) == ListSales(service, pageNumber, pageSize)
  {
  }
}

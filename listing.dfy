/** The paginated listing: month filter and search, then one page and the page count. */
module Listing {
  import opened Store
  import opened Query
  import opened Pagination

  /** What the database answers for the listing query. A page number below 1
      asks it to skip a negative number of records, which it refuses; the
      handler then answers with its error message. */
  datatype QueryError = NegativeSkip

  datatype Result<T> = Ok(value: T) | Err(error: QueryError)

  /** The listing's body: the records of the requested page and the page count. */
  datatype Page = Page(transactions: seq<Transaction>, totalPages: nat)

  /** The listing for `month`, `search`, page number `page` and `perPage`
      records per page. A `perPage` of 0 would divide by zero. */
  function GetTransactions(store: seq<Transaction>, month: string, search: string, page: int, perPage: nat): (r: Result<Page>)
    requires perPage >= 1
    ensures r.Err? <==> page < 1
    ensures r.Ok? ==>
      var listed := Listed(store, month, search);
      && Offset(page, perPage) >= 0
      && IsWindow(r.value.transactions, listed, Offset(page, perPage), perPage)
      && IsPageCount(r.value.totalPages, perPage, |listed|)
  {
    var listed := Listed(store, month, search);
    var offset := Offset(page, perPage);
    if offset < 0 then
      Err(NegativeSkip)
    else
      Ok(Page(Slice(listed, offset, perPage), TotalPages(|listed|, perPage)))
  }
}

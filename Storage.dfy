/**
 * The data-access layer as the measurement providers see it: page requests,
 * pages, and a repository whose answers are left open.
 */
module Storage {
  import opened Wrappers
  import opened MeasurementRows
  import opened Measurements

  /** A 0-based page index, a page size and a sort. */
  datatype PageRequest = PageRequest(pageNumber: nat, pageSize: nat, sort: Sort)

  /** PageRequest.of: refuses a negative page index or a page size below one. */
  function PageRequestOf(page: int, size: int, sort: Sort): (r: Result<PageRequest, Problem>)
    ensures r.Success? <==> page >= 0 && size >= 1
    ensures r.Success? ==> r.value.pageNumber == page && r.value.pageSize == size && r.value.sort == sort
    ensures r.Failure? ==> r.error.IllegalArgument?
  {
    if page < 0 then Failure(IllegalArgument("Page index must not be less than zero"))
    else if size < 1 then Failure(IllegalArgument("Page size must not be less than one"))
    else Success(PageRequest(page, size, sort))
  }

  /** The arguments of one findAllMatching call. */
  datatype Query = Query(
    customerOrgId: Option<string>,
    facilityId: Option<string>,
    from: Option<Timestamp>,
    to: Option<Timestamp>,
    pageable: PageRequest)

  /** A page of rows: the content (a null list, or a list that may hold nulls) and the totals of the whole result. */
  datatype Page<R> = Page(content: Option<seq<Option<R>>>, totalPages: nat, totalElements: nat)

  /**
   * A measurement repository. What it answers is any function of the query
   * (`storage`); `calls` records every query it receives, in order.
   */
  class Repository<R> {
    const storage: Query -> Page<R>
    ghost var calls: seq<Query>

    constructor (storage: Query -> Page<R>)
      ensures this.storage == storage && calls == []
    {
      this.storage := storage;
      calls := [];
    }

    /** findAllMatching: answers the query and records it. */
    method FindAllMatching(
      customerOrgId: Option<string>, facilityId: Option<string>, from: Option<Timestamp>, to: Option<Timestamp>, pageable: PageRequest)
      returns (page: Page<R>)
      modifies this
      ensures calls == old(calls) + [Query(customerOrgId, facilityId, from, to, pageable)]
      ensures page == storage(Query(customerOrgId, facilityId, from, to, pageable))
    {
      page := storage(Query(customerOrgId, facilityId, from, to, pageable));
      calls := calls + [Query(customerOrgId, facilityId, from, to, pageable)];
    }
  }
}

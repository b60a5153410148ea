/** The property data store (`PropertyProvider`): five state cells, updated by
    the page fetch, the site-plan fetch and the page setter. The network is not
    modelled: each request is returned to the caller, and how it ends is passed
    back in as an outcome. */
module PropertyStore {
  import opened Js
  import opened Records
  import Acquisition

  /** `pageSize`, sent as `limit` with every page request. */
  const PageSize: int := 10

  /** `GET /properties?page=<page>&limit=<limit>` */
  datatype PageRequest = PageRequest(page: int, limit: int)

  /** The body of a page reply; either field may be missing. */
  datatype PageBody = PageBody(properties: Option<seq<Property>>, totalPages: Option<int>)

  /** How a page request ends. A reply without a body (`PageReplied(None)`)
      makes the destructuring of `res.data` throw, so it ends in the same
      handler as a failed request. */
  datatype PageOutcome = PageFailed | PageReplied(data: Option<PageBody>)

  /** How `GET /siteplans` ends. */
  datatype SitePlanOutcome = SitePlansFailed | SitePlansReplied(data: Option<seq<SitePlan>>)

  /** The reply carries a body. */
  predicate HasBody(o: PageOutcome) {
    o.PageReplied? && o.data.Some?
  }

  /** The inventory list the store holds once a page request has ended: the
      reply's list, or `[]` when the list is missing or the request failed. */
  function PageProperties(o: PageOutcome): (r: seq<Property>)
    ensures HasBody(o) && o.data.value.properties.Some? ==> r == o.data.value.properties.value
    ensures !(HasBody(o) && o.data.value.properties.Some?) ==> r == []
  {
    match o
    case PageReplied(Some(body)) => if body.properties.Some? then body.properties.value else []
    case _ => []
  }

  /** The page count the store holds once a page request has ended: the reply's
      count when it is truthy, 1 otherwise; never 0. */
  function PageTotal(o: PageOutcome): (r: int)
    ensures r != 0
    ensures HasBody(o) && IntTruthy(o.data.value.totalPages) ==> r == o.data.value.totalPages.value
    ensures !(HasBody(o) && IntTruthy(o.data.value.totalPages)) ==> r == 1
  {
    match o
    case PageReplied(Some(body)) => IntOr(body.totalPages, 1)
    case _ => 1
  }

  /** The site plans the store holds once their request has ended. */
  function ReceivedSitePlans(o: SitePlanOutcome): (r: seq<SitePlan>)
    ensures o.SitePlansReplied? && o.data.Some? ==> r == o.data.value
    ensures !(o.SitePlansReplied? && o.data.Some?) ==> r == []
  {
    match o
    case SitePlansReplied(Some(plans)) => plans
    case _ => []
  }

  class Store {
    var properties: seq<Property>
    var siteplans: seq<SitePlan>
    var loading: bool
    var page: int
    var totalPages: int

    /** The initial state cells. */
    constructor ()
      ensures properties == [] && siteplans == [] && loading && page == 1 && totalPages == 1
    {
      properties := [];
      siteplans := [];
      loading := true;
      page := 1;
      totalPages := 1;
    }

    /** The synchronous part of `fetchProperties(currentPage)`: raise the loading
        flag and issue the request. */
    method StartPageFetch(currentPage: int) returns (req: PageRequest)
      modifies this
      ensures req == PageRequest(currentPage, PageSize)
      ensures loading
      ensures properties == old(properties) && siteplans == old(siteplans)
      ensures page == old(page) && totalPages == old(totalPages)
    {
      loading := true;
      req := PageRequest(currentPage, PageSize);
    }

    /** The rest of `fetchProperties`: the `try` branch on a reply with a body,
        the `catch` branch otherwise, and the `finally` that lowers the flag. */
    method FinishPageFetch(outcome: PageOutcome)
      modifies this
      ensures properties == PageProperties(outcome)
      ensures totalPages == PageTotal(outcome)
      ensures !loading
      ensures siteplans == old(siteplans) && page == old(page)
    {
      match outcome {
        case PageReplied(Some(body)) =>
          properties := if body.properties.Some? then body.properties.value else [];
          totalPages := IntOr(body.totalPages, 1);
        case _ =>
          properties := [];
          totalPages := 1;
      }
      loading := false;
    }

    /** `fetchSiteplans` once its request has ended; no other cell changes. */
    method FinishSitePlanFetch(outcome: SitePlanOutcome)
      modifies this`siteplans
      ensures siteplans == ReceivedSitePlans(outcome)
    {
      match outcome {
        case SitePlansReplied(Some(plans)) =>
          siteplans := plans;
        case _ =>
          siteplans := [];
      }
    }

    /** The first render's effects: the page effect fetches the initial page;
        the site-plan effect issues its request without changing any cell. */
    method Mount() returns (req: PageRequest)
      modifies this
      ensures req == PageRequest(old(page), PageSize)
      ensures loading
      ensures properties == old(properties) && siteplans == old(siteplans)
      ensures page == old(page) && totalPages == old(totalPages)
    {
      req := StartPageFetch(page);
    }

    /** `setPage(n)` takes any value. The `[page]` effect runs only when the
        value actually changes, and then fetches exactly that page. */
    method SetPage(n: int) returns (req: Option<PageRequest>)
      modifies this
      ensures page == n
      ensures req == if n != old(page) then Some(PageRequest(n, PageSize)) else None
      ensures loading == (n != old(page) || old(loading))
      ensures properties == old(properties) && siteplans == old(siteplans) && totalPages == old(totalPages)
    {
      var previous := page;
      page := n;
      if n != previous {
        var r := StartPageFetch(n);
        req := Some(r);
      } else {
        req := None;
      }
    }

    /** The Previous button (shown only when there is more than one page):
        from the first page it requests nothing, otherwise the page before (or
        page 1, from a page below it). */
    method PressPrevious() returns (req: Option<PageRequest>)
      requires totalPages > 1
      modifies this
      ensures page == Acquisition.Pagination(old(page), old(totalPages)).value.previousTarget
      ensures req == if page != old(page) then Some(PageRequest(page, PageSize)) else None
      ensures loading == (req.Some? || old(loading))
      ensures old(page) == 1 ==> req == None && page == 1
      ensures old(page) > 1 ==> req == Some(PageRequest(old(page) - 1, PageSize))
      ensures old(page) < 1 ==> req == Some(PageRequest(1, PageSize))
      ensures properties == old(properties) && siteplans == old(siteplans) && totalPages == old(totalPages)
    {
      req := SetPage(Max(1, page - 1));
    }

    /** The Next button: from the last page it requests nothing, otherwise the
        page after; from a page past the last, which a reply with fewer pages
        leaves behind, it requests the last page. */
    method PressNext() returns (req: Option<PageRequest>)
      requires totalPages > 1
      modifies this
      ensures page == Acquisition.Pagination(old(page), old(totalPages)).value.nextTarget
      ensures req == if page != old(page) then Some(PageRequest(page, PageSize)) else None
      ensures loading == (req.Some? || old(loading))
      ensures old(page) == old(totalPages) ==> req == None && page == old(page)
      ensures old(page) < old(totalPages) ==> req == Some(PageRequest(old(page) + 1, PageSize))
      ensures old(page) > old(totalPages) ==> req == Some(PageRequest(old(totalPages), PageSize))
      ensures properties == old(properties) && siteplans == old(siteplans) && totalPages == old(totalPages)
    {
      req := SetPage(Min(totalPages, page + 1));
    }
  }
}

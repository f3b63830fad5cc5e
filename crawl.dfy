/** The page loop: page 1, then pages 2, 3, ... while the page number does
    not exceed the dataset's page count, re-read after every page. */
module Crawling {
  import opened Wrappers
  import opened Markup
  import opened Extraction
  import opened Ibsf

  /** The dataset after each page processed, page 1 first, and how the loop ended. */
  datatype CrawlResult =
    | Finished(trace: seq<Data>)
    | LimitReached(trace: seq<Data>)
    | PageFailed(trace: seq<Data>, page: int, error: Error)

  /** What the crawl method reports. */
  datatype CrawlStatus = Completed | PageLimitReached | PageError(page: int, error: Error)

  function StatusOf(c: CrawlResult): CrawlStatus {
    match c
    case Finished(_) => Completed
    case LimitReached(_) => PageLimitReached
    case PageFailed(_, page, error) => PageError(page, error)
  }

  /** The loop from `pageNumber` on, with `d` the dataset after the pages in `trace`.
      Pages above `pageLimit` are not fetched. */
  function ContinueCrawl(d: Data, pageNumber: int, trace: seq<Data>, run: (Data, int) -> Result<Data, Error>, pageLimit: int)
    : CrawlResult
    decreases pageLimit - pageNumber
  {
    if pageNumber > d.numPages then Finished(trace)
    else if pageNumber > pageLimit then LimitReached(trace)
    else
      match run(d, pageNumber)
      case Err(e) => PageFailed(trace, pageNumber, e)
      case Ok(d1) => ContinueCrawl(d1, pageNumber + 1, trace + [d1], run, pageLimit)
  }

  /** The whole crawl from dataset `d`: page 1 unconditionally, then the loop from page 2. */
  function CrawlResultOf(d: Data, run: (Data, int) -> Result<Data, Error>, pageLimit: int): CrawlResult {
    match run(d, 1)
    case Err(e) => PageFailed([], 1, e)
    case Ok(d1) => ContinueCrawl(d1, 2, [d1], run, pageLimit)
  }

  /** The dataset before the page at index `i` of the trace. */
  function Before(d0: Data, trace: seq<Data>, i: nat): Data
    requires i <= |trace|
  {
    if i == 0 then d0 else trace[i - 1]
  }

  /** `trace[i]` is what page `i + 1` made of the dataset before it, and after
      every page but the last the count let the loop go on. */
  ghost predicate IsTrace(d0: Data, trace: seq<Data>, run: (Data, int) -> Result<Data, Error>) {
    (forall i {:trigger Before(d0, trace, i)} :: 0 <= i < |trace| ==> run(Before(d0, trace, i), i + 1) == Ok(trace[i]))
    && (forall i :: 0 <= i < |trace| - 1 ==> trace[i].numPages >= i + 2)
  }

  /** How a crawl ends, with the pages it processed. */
  ghost predicate CrawlEnds(d0: Data, c: CrawlResult, run: (Data, int) -> Result<Data, Error>, pageLimit: int) {
    IsTrace(d0, c.trace, run)
    && match c
       case Finished(t) => t != [] && t[|t| - 1].numPages < |t| + 1
       case LimitReached(t) => t != [] && t[|t| - 1].numPages >= |t| + 1 && |t| + 1 > pageLimit
       case PageFailed(t, k, e) =>
         k == |t| + 1 && run(Before(d0, t, |t|), k) == Err(e)
         && (t != [] ==> t[|t| - 1].numPages >= k && k <= pageLimit)
  }

  /** A page that the loop goes on to extends the trace. */
  lemma TraceExtend(d0: Data, trace: seq<Data>, d1: Data, run: (Data, int) -> Result<Data, Error>)
    requires IsTrace(d0, trace, run) && trace != []
    requires trace[|trace| - 1].numPages >= |trace| + 1
    requires run(trace[|trace| - 1], |trace| + 1) == Ok(d1)
    ensures IsTrace(d0, trace + [d1], run)
  {
    var trace1 := trace + [d1];
    forall i | 0 <= i < |trace1|
      ensures run(Before(d0, trace1, i), i + 1) == Ok(trace1[i])
    {
      if i < |trace| {
        assert trace1[i] == trace[i];
        assert Before(d0, trace1, i) == Before(d0, trace, i);
      } else {
        assert Before(d0, trace1, i) == trace[|trace| - 1];
      }
    }
    forall i | 0 <= i < |trace1| - 1
      ensures trace1[i].numPages >= i + 2
    {
      assert trace1[i] == trace[i];
    }
  }

  lemma {:induction false} ContinueCrawlEnds(
    d0: Data, d: Data, pageNumber: int, trace: seq<Data>, run: (Data, int) -> Result<Data, Error>, pageLimit: int)
    requires pageNumber >= 2 && |trace| == pageNumber - 1 && trace[|trace| - 1] == d
    requires IsTrace(d0, trace, run)
    ensures CrawlEnds(d0, ContinueCrawl(d, pageNumber, trace, run, pageLimit), run, pageLimit)
    decreases pageLimit - pageNumber
  {
    if pageNumber > d.numPages || pageNumber > pageLimit {
    } else {
      match run(d, pageNumber)
      case Err(e) =>
      case Ok(d1) =>
        TraceExtend(d0, trace, d1, run);
        ContinueCrawlEnds(d0, d1, pageNumber + 1, trace + [d1], run, pageLimit);
    }
  }

  /** Crawl order: page 1 first, then 2, 3, ... each once, each run on the dataset
      the previous page left; the loop stops after the first page k whose count is
      below k + 1, at the page limit, or at the first page that raises. */
  lemma CrawlOrder(d0: Data, run: (Data, int) -> Result<Data, Error>, pageLimit: int)
    ensures CrawlEnds(d0, CrawlResultOf(d0, run, pageLimit), run, pageLimit)
  {
    match run(d0, 1)
    case Err(e) =>
    case Ok(d1) =>
      ContinueCrawlEnds(d0, d1, 2, [d1], run, pageLimit);
  }

  lemma {:induction false} ContinueWithFixedCount(
    d: Data, pageNumber: int, trace: seq<Data>, run: (Data, int) -> Result<Data, Error>, pageLimit: int, n: int)
    requires forall k, d' :: 1 <= k ==> run(d', k).Ok? && run(d', k).value.numPages == n
    requires pageLimit >= n && d.numPages == n && pageNumber >= 2 && |trace| == pageNumber - 1
    ensures var c := ContinueCrawl(d, pageNumber, trace, run, pageLimit);
            c.Finished? && |c.trace| == Max(pageNumber - 1, n)
    decreases pageLimit - pageNumber
  {
    if pageNumber <= n {
      var d1 := run(d, pageNumber).value;
      ContinueWithFixedCount(d1, pageNumber + 1, trace + [d1], run, pageLimit, n);
    }
  }

  /** When every page reports the same count n, the crawl processes exactly
      pages 1 to max(1, n), provided the limit allows n. */
  lemma CrawlFixedCount(d0: Data, run: (Data, int) -> Result<Data, Error>, pageLimit: int, n: int)
    requires forall k, d' :: 1 <= k ==> run(d', k).Ok? && run(d', k).value.numPages == n
    requires pageLimit >= n
    ensures var c := CrawlResultOf(d0, run, pageLimit);
            c.Finished? && |c.trace| == Max(1, n)
  {
    var d1 := run(d0, 1).value;
    ContinueWithFixedCount(d1, 2, [d1], run, pageLimit, n);
  }

  /** The count is overwritten, not maximised: page 1 announcing 5 pages and
      page 2 announcing 1 ends the crawl after page 2. */
  lemma LaterSmallerCountStops(d0: Data, d1: Data, d2: Data, run: (Data, int) -> Result<Data, Error>, pageLimit: int)
    requires run(d0, 1) == Ok(d1) && d1.numPages == 5
    requires run(d1, 2) == Ok(d2) && d2.numPages == 1
    requires pageLimit >= 2
    ensures CrawlResultOf(d0, run, pageLimit) == Finished([d1, d2])
  {
    assert ContinueCrawl(d2, 3, [d1, d2], run, pageLimit) == Finished([d1, d2]);
    assert [d1] + [d2] == [d1, d2];
  }

  /** The site as the crawl sees it: page k's events, run through a fresh parser. */
  function PageRunner(pages: int -> seq<Event>, r: Resolver): (Data, int) -> Result<Data, Error> {
    (d: Data, k: int) => RunPage(d, pages(k), r)
  }

  /** `crawlOnePage`: a fresh parser, sharing the dataset, fed page `pageNumber`. */
  method CrawlOnePage(dataset: DataSet, pageNumber: int, pages: int -> seq<Event>, r: Resolver)
    returns (out: Outcome<Error>)
    modifies dataset
    ensures var res := RunPage(old(dataset.Value()), pages(pageNumber), r);
            out == Status(res) && (res.Ok? ==> dataset.Value() == res.value)
  {
    var parser := new HtmlParser(dataset, r);
    out := parser.Feed(pages(pageNumber));
  }

  /** `crawl`; the loop stops with `PageLimitReached` where it would fetch a page above `pageLimit`. */
  method Crawl(dataset: DataSet, pages: int -> seq<Event>, r: Resolver, pageLimit: int) returns (status: CrawlStatus)
    modifies dataset
    ensures var res := CrawlResultOf(old(dataset.Value()), PageRunner(pages, r), pageLimit);
            status == StatusOf(res)
            && (!res.PageFailed? ==> res.trace != [] && dataset.Value() == res.trace[|res.trace| - 1])
  {
    ghost var run := PageRunner(pages, r);
    ghost var d0 := dataset.Value();
    var out := CrawlOnePage(dataset, 1, pages, r);
    if out.Fail? {
      return PageError(1, out.error);
    }
    ghost var trace := [dataset.Value()];
    var pageNumber := 2;
    while pageNumber <= dataset.numPages
      invariant 2 <= pageNumber && trace != [] && dataset.Value() == trace[|trace| - 1]
      invariant ContinueCrawl(dataset.Value(), pageNumber, trace, run, pageLimit)
             == CrawlResultOf(d0, run, pageLimit)
      decreases pageLimit - pageNumber + 1
    {
      if pageNumber > pageLimit {
        return PageLimitReached;
      }
      out := CrawlOnePage(dataset, pageNumber, pages, r);
      if out.Fail? {
        return PageError(pageNumber, out.error);
      }
      trace := trace + [dataset.Value()];
      pageNumber := pageNumber + 1;
    }
    status := Completed;
  }
}

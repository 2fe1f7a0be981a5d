/** `CompanyWebScraper.scrape_content` and its inner `process_url`: a static
    fetch, a browser-render fallback, a sentinel document on any exception, and
    batches of at most `max_concurrent` URLs gathered in order. */
module Scrape {
  import opened Basics
  import opened TextClean

  type Url = string

  /** A langchain `Document`: the page text and its `source` metadata entry. */
  datatype Document = Document(content: string, source: Url)

  const NO_CONTENT: string := "No content found"
  const HTTP_OK: int := 200
  const DEFAULT_MAX_CONCURRENT: int := 100
  /** `' \n'.join(soup.stripped_strings)` */
  const TEXT_SEPARATOR: string := " \n"

  /** Reading the body with `response.text()` may raise (e.g. a decode error). */
  datatype Body = Html(html: string) | BodyRaised

  /** What `session.get(url)` yields: an exception, or a status and a body. */
  datatype HttpReply = HttpRaised | Reply(status: int, body: Body)

  /** What the Playwright launch / goto / wait / `page.content()` sequence yields.
      `RenderRaised` also stands for `browser.close()` or the exit of the
      `async_playwright()` context raising after a successful render: all of
      these sit inside the same `try`, so each gives the sentinel. */
  datatype RenderReply = RenderRaised | Rendered(html: string)

  /** The outside world of the scraper: aiohttp, Playwright, and BeautifulSoup's
      `stripped_strings`, each an uninterpreted function. */
  datatype Web = Web(
    get: Url -> HttpReply,
    render: Url -> RenderReply,
    strippedStrings: string -> seq<string>)

  /** Which of `process_url`'s three exits was taken. */
  datatype FetchPath = StaticPage(html: string) | RenderedPage(html: string) | Sentinel

  function Join(parts: seq<string>, sep: string): string
    decreases |parts|
  {
    if parts == [] then ""
    else if |parts| == 1 then parts[0]
    else parts[0] + sep + Join(parts[1..], sep)
  }

  /** Text extraction shared by both fetch paths. */
  function PageText(isWord: char -> bool, web: Web, html: string): string {
    CleanText(isWord, Join(web.strippedStrings(html), TEXT_SEPARATOR))
  }

  /** The branch `process_url` takes for `url`. */
  function Route(web: Web, url: Url): FetchPath {
    match web.get(url)
    case HttpRaised => Sentinel
    case Reply(status, body) =>
      if status == HTTP_OK then
        (match body
         case Html(html) => StaticPage(html)
         case BodyRaised => Sentinel)
      else
        (match web.render(url)
         case Rendered(html) => RenderedPage(html)
         case RenderRaised => Sentinel)
  }

  /** `process_url`: never raises; always yields a document for `url`. */
  function ProcessUrl(isWord: char -> bool, web: Web, url: Url): (d: Document)
    ensures d.source == url
    ensures d.content == NO_CONTENT || IsClean(isWord, d.content)
  {
    match Route(web, url)
    case StaticPage(html) => Document(PageText(isWord, web, html), url)
    case RenderedPage(html) => Document(PageText(isWord, web, html), url)
    case Sentinel => Document(NO_CONTENT, url)
  }

  /** The sentinel text is itself clean when `\w` covers its ASCII letters. */
  lemma SentinelIsClean(isWord: char -> bool)
    requires forall i :: 0 <= i < |NO_CONTENT| && NO_CONTENT[i] != ' ' ==> isWord(NO_CONTENT[i])
    ensures IsClean(isWord, NO_CONTENT)
  {
  }

  /** Status 200 with a readable body uses the statically fetched page; the
      browser is never consulted. */
  lemma {:induction false} StaticOn200(isWord: char -> bool, web: Web, url: Url, html: string, render: Url -> RenderReply)
    requires web.get(url) == Reply(HTTP_OK, Html(html))
    ensures ProcessUrl(isWord, web, url) == Document(PageText(isWord, web, html), url)
    ensures ProcessUrl(isWord, web.(render := render), url) == ProcessUrl(isWord, web, url)
  {
  }

  /** Any other status goes to the browser render, whatever the static body was. */
  lemma {:induction false} RenderOnOtherStatus(isWord: char -> bool, web: Web, url: Url, body: Body)
    requires web.get(url).Reply? && web.get(url).status != HTTP_OK
    ensures ProcessUrl(isWord, web, url) ==
      (match web.render(url)
       case Rendered(html) => Document(PageText(isWord, web, html), url)
       case RenderRaised => Document(NO_CONTENT, url))
    ensures ProcessUrl(isWord, web, url) ==
      ProcessUrl(isWord, web.(get := (u: Url) => if u == url then Reply(web.get(url).status, body) else web.get(u)), url)
  {
  }

  /** An exception on either path gives the sentinel document for `url`. */
  lemma {:induction false} ExceptionGivesSentinel(isWord: char -> bool, web: Web, url: Url)
    requires
      || web.get(url) == HttpRaised
      || web.get(url) == Reply(HTTP_OK, BodyRaised)
      || (web.get(url).Reply? && web.get(url).status != HTTP_OK && web.render(url) == RenderRaised)
    ensures ProcessUrl(isWord, web, url) == Document(NO_CONTENT, url)
  {
  }

  /** `asyncio.gather` over one batch: results in task order. */
  function Gather(isWord: char -> bool, web: Web, urls: seq<Url>): (docs: seq<Document>)
    ensures |docs| == |urls|
    ensures forall i :: 0 <= i < |urls| ==> docs[i] == ProcessUrl(isWord, web, urls[i])
    ensures forall i :: 0 <= i < |urls| ==> docs[i].source == urls[i]
  {
    seq(|urls|, i requires 0 <= i < |urls| => ProcessUrl(isWord, web, urls[i]))
  }

  /** Python's `urls[i:i + n]` for `0 <= i` and `n >= 1`. */
  function Slice(urls: seq<Url>, i: nat, n: nat): seq<Url>
    requires i <= |urls|
  {
    urls[i..Min(i + n, |urls|)]
  }

  function Flatten(bs: seq<seq<Url>>): seq<Url>
    decreases |bs|
  {
    if bs == [] then [] else bs[0] + Flatten(bs[1..])
  }

  /** The batches `for i in range(start, len(urls), n)` visits. */
  function Batches(urls: seq<Url>, n: nat, start: nat): (bs: seq<seq<Url>>)
    requires n >= 1 && start <= |urls|
    ensures Flatten(bs) == urls[start..]
    ensures forall k :: 0 <= k < |bs| ==> 1 <= |bs[k]| <= n
    ensures forall k :: 0 <= k < |bs| - 1 ==> |bs[k]| == n
    decreases |urls| - start
  {
    if start == |urls| then []
    else
      var next := Min(start + n, |urls|);
      var rest := Batches(urls, n, next);
      assert urls[start..] == urls[start..next] + urls[next..];
      [Slice(urls, start, n)] + rest
  }

  /** Every batch gathered in turn, the results laid end to end. */
  function GatherAll(isWord: char -> bool, web: Web, bs: seq<seq<Url>>): seq<Document>
    decreases |bs|
  {
    if bs == [] then [] else Gather(isWord, web, bs[0]) + GatherAll(isWord, web, bs[1..])
  }

  /** The batch starting at `i` is gathered first, then the batches after it. */
  lemma BatchesStep(isWord: char -> bool, web: Web, urls: seq<Url>, n: nat, i: nat)
    requires n >= 1 && i < |urls|
    ensures GatherAll(isWord, web, Batches(urls, n, i)) ==
      Gather(isWord, web, Slice(urls, i, n)) + GatherAll(isWord, web, Batches(urls, n, Min(i + n, |urls|)))
  {
    var bs := Batches(urls, n, i);
    assert bs[0] == Slice(urls, i, n);
    assert bs[1..] == Batches(urls, n, Min(i + n, |urls|));
  }

  /** `scrape_content`'s argument: a bare string or a list of URLs. */
  datatype UrlArg = OneUrl(url: Url) | UrlList(urls: seq<Url>)

  function AsList(arg: UrlArg): (urls: seq<Url>)
    ensures arg.OneUrl? ==> urls == [arg.url]
  {
    match arg
    case OneUrl(u) => [u]
    case UrlList(us) => us
  }

  /** Appending the gathered batch that starts at `i` keeps `results` a prefix
      of the per-URL documents. */
  lemma GatherExtends(isWord: char -> bool, web: Web, urls: seq<Url>, results: seq<Document>, i: nat, n: nat)
    requires i < |urls| && |results| == i && n >= 1
    requires forall k :: 0 <= k < i ==> results[k] == ProcessUrl(isWord, web, urls[k])
    ensures |results + Gather(isWord, web, Slice(urls, i, n))| == Min(i + n, |urls|)
    ensures forall k :: 0 <= k < Min(i + n, |urls|) ==>
      (results + Gather(isWord, web, Slice(urls, i, n)))[k] == ProcessUrl(isWord, web, urls[k])
  {
    var batch := Slice(urls, i, n);
    var all := results + Gather(isWord, web, batch);
    forall k | i <= k < Min(i + n, |urls|)
      ensures all[k] == ProcessUrl(isWord, web, urls[k])
    {
      assert batch[k - i] == urls[k];
    }
  }

  /** `results` followed by the batches from `i` on is everything gathered. */
  predicate CoversFrom(isWord: char -> bool, web: Web, urls: seq<Url>, n: nat, i: nat, results: seq<Document>)
    requires n >= 1 && i <= |urls|
  {
    results + GatherAll(isWord, web, Batches(urls, n, i)) == GatherAll(isWord, web, Batches(urls, n, 0))
  }

  /** Gathering the batch at `i` moves the cover on to the next batch. */
  lemma CoversStep(isWord: char -> bool, web: Web, urls: seq<Url>, n: nat, i: nat, results: seq<Document>)
    requires n >= 1 && i < |urls|
    requires CoversFrom(isWord, web, urls, n, i, results)
    ensures CoversFrom(isWord, web, urls, n, Min(i + n, |urls|), results + Gather(isWord, web, Slice(urls, i, n)))
  {
    BatchesStep(isWord, web, urls, n, i);
  }

  /** The loop of `scrape_content` for a positive step `n`. */
  method ScrapeBatches(isWord: char -> bool, web: Web, urls: seq<Url>, n: nat) returns (results: seq<Document>)
    requires n >= 1
    ensures |results| == |urls|
    ensures forall k :: 0 <= k < |urls| ==> results[k] == ProcessUrl(isWord, web, urls[k])
    ensures results == GatherAll(isWord, web, Batches(urls, n, 0))
  {
    results := [];
    var i := 0;
    while i < |urls|
      invariant |results| == Min(i, |urls|)
      invariant forall k :: 0 <= k < |results| ==> results[k] == ProcessUrl(isWord, web, urls[k])
      invariant CoversFrom(isWord, web, urls, n, Min(i, |urls|), results)
      decreases |urls| - i
    {
      var batchResults := Gather(isWord, web, Slice(urls, i, n));
      GatherExtends(isWord, web, urls, results, i, n);
      CoversStep(isWord, web, urls, n, i, results);
      results := results + batchResults;
      i := i + n;
    }
    assert results + [] == results;
  }

  /** `range()` raises `ValueError` for a zero step. */
  datatype ScrapeError = ZeroStep

  /** `scrape_content(urls, max_concurrent)`. */
  method ScrapeContent(isWord: char -> bool, web: Web, arg: UrlArg, maxConcurrent: int)
    returns (r: Result<seq<Document>, ScrapeError>)
    ensures r.Failure? <==> maxConcurrent == 0
    ensures maxConcurrent < 0 ==> r == Success([])
    ensures maxConcurrent > 0 ==>
      && r.Success?
      && |r.value| == |AsList(arg)|
      && forall i :: 0 <= i < |r.value| ==> r.value[i] == ProcessUrl(isWord, web, AsList(arg)[i])
    ensures maxConcurrent > 0 ==> r.value == GatherAll(isWord, web, Batches(AsList(arg), maxConcurrent, 0))
  {
    if maxConcurrent == 0 {
      return Failure(ZeroStep);
    }
    if maxConcurrent < 0 {
      // `range(0, len(urls), step)` with a negative step is empty.
      return Success([]);
    }
    var results := ScrapeBatches(isWord, web, AsList(arg), maxConcurrent);
    return Success(results);
  }
}

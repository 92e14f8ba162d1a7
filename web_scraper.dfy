/**
  The scraper behind the HTTP endpoint (`main.py`): the search URL of a query,
  the extraction of one results page with its driver lifecycle, and the merge
  of all queries' results into one list deduplicated by URL.
 */
module WebScraper {
  import opened Wrappers
  import opened UrlCodec
  import opened Text
  import opened Browser
  import opened Collect
  import opened Dedup

  // ---------------------------------------------------------------- URL

  const SearchBase: string := "https://www.linkedin.com/jobs/search/"
  const KeywordsPrefix: string := SearchBase + "?keywords="
  /** The parameters after the keywords; they do not depend on the query. */
  const OtherParams: string := "location=India&trk=public_jobs_jobs-search-bar_search-submit&position=1&pageNum=0"

  /** The search URL of a query (the query as its UTF-8 bytes): the fixed
      prefix, then the `quote_plus` encoding and nothing else, then the fixed
      suffix; and the `keywords` parameter, read up to the first `&`, is
      exactly the encoded query. */
  function BuildSearchUrl(query: seq<byte>): (url: string)
    ensures |url| >= |KeywordsPrefix| + |OtherParams| + 1
    ensures url[..|KeywordsPrefix|] == KeywordsPrefix
    ensures url[|url| - |OtherParams| - 1..] == "&" + OtherParams
    ensures url[|KeywordsPrefix|..|url| - |OtherParams| - 1] == QuotePlus(query)
    ensures ParamAfter(url, KeywordsPrefix) == Some(QuotePlus(query))
  {
    var encoded := QuotePlus(query);
    QuotePlusHasNoValueEnd(query);
    FramedParam(KeywordsPrefix, encoded, OtherParams);
    KeywordsPrefix + encoded + "&" + OtherParams
  }

  /** What a server reads back as the query: the decoded `keywords` parameter. */
  function ParseSearchUrl(url: string): Option<seq<byte>>
  {
    match ParamAfter(url, KeywordsPrefix)
    case Some(v) => UnquotePlus(v)
    case None => None
  }

  /** The keywords a server decodes from the URL are the query itself. */
  lemma SearchUrlRoundTrip(query: seq<byte>)
    ensures ParseSearchUrl(BuildSearchUrl(query)) == Some(query)
  {
    QuotePlusRoundTrip(query);
  }

  /** Distinct queries give distinct URLs. */
  lemma SearchUrlInjective(q1: seq<byte>, q2: seq<byte>)
    requires BuildSearchUrl(q1) == BuildSearchUrl(q2)
    ensures q1 == q2
  {
    SearchUrlRoundTrip(q1);
    SearchUrlRoundTrip(q2);
  }

  // ---------------------------------------------------------- extraction

  /** One element found by class name. `text` is the element's `.text`,
      `href` its `get_attribute("href")`, and `ancestorHref` the `href` of the
      anchor that the title's `.//ancestor::a[1]` look-up returns (`Raises`
      when `find_element` raises because nothing matches). */
  datatype Element = Element(text: Read<string>, href: Read<Option<string>>, ancestorHref: Read<Option<string>>)

  /** Python truthiness of a link: present and non-empty. */
  predicate Truthy(link: Option<string>)
  {
    link.Some? && link.value != ""
  }

  /** The entry for index i, built from the i-th title, company and link
      elements. It is produced iff the three reads succeed and, when the link
      element's `href` is falsy, the anchor look-up succeeds; it then holds the
      stripped title and company texts and the `href` when truthy, otherwise
      the anchor's `href`. `None` means the entry is skipped. */
  function EntryAt(title: Element, company: Element, link: Element): (e: Option<Listing>)
    ensures e.Some? <==>
              && title.text.Returns? && company.text.Returns? && link.href.Returns?
              && (Truthy(link.href.value) || title.ancestorHref.Returns?)
    ensures e.Some? ==>
              && e.value.title == Strip(title.text.value)
              && e.value.company == Strip(company.text.value)
              && e.value.link == (if Truthy(link.href.value) then link.href.value else title.ancestorHref.value)
  {
    match (title.text, company.text, link.href)
    case (Returns(t), Returns(c), Returns(h)) =>
      if Truthy(h) then Some(Listing(Strip(t), Strip(c), h))
      else
        (match title.ancestorHref
         case Returns(a) => Some(Listing(Strip(t), Strip(c), a))
         case Raises => None)
    case _ => None
  }

  function Min(a: int, b: int): int
  {
    if a <= b then a else b
  }

  /** `min(len(titles), len(companies), len(links), max_results)`, and
      `range` of a negative count is empty. */
  function Count(ts: seq<Element>, cs: seq<Element>, ls: seq<Element>, maxResults: int): (n: nat)
    ensures n <= |ts| && n <= |cs| && n <= |ls|
    ensures maxResults >= 0 ==> n <= maxResults
    ensures maxResults >= 0 ==> n == |ts| || n == |cs| || n == |ls| || n == maxResults
    ensures maxResults < 0 ==> n == 0
  {
    var m := Min(Min(Min(|ts|, |cs|), |ls|), maxResults);
    if m < 0 then 0 else m
  }

  /** The outcome of every index below `n`. */
  function Entries(ts: seq<Element>, cs: seq<Element>, ls: seq<Element>, n: nat): seq<Option<Listing>>
    requires n <= |ts| && n <= |cs| && n <= |ls|
  {
    seq(n, i requires 0 <= i < n => EntryAt(ts[i], cs[i], ls[i]))
  }

  /** What the browser does for one query. Each flag or `Raises` names the
      call that raises: launching the driver, `driver.get`, the ten-second
      readiness wait (`false` = timed out), the three `find_elements` calls and
      `driver.quit`. */
  datatype Web = Web(
    launches: bool,
    navigates: bool,
    ready: bool,
    titles: Read<seq<Element>>,
    companies: Read<seq<Element>>,
    links: Read<seq<Element>>,
    quitRaises: bool)

  /** Launch, navigation, the wait and the three look-ups all succeeded. */
  predicate PageLoaded(web: Web)
  {
    web.launches && web.navigates && web.ready
    && web.titles.Returns? && web.companies.Returns? && web.links.Returns?
  }

  /** The list `scrape_linkedin_jobs` returns: empty if anything before the
      loop raised (a wait timeout included), otherwise the entries of the
      first `count` indices that did not raise. It never holds more than
      `max_results` entries nor more than any of the three lists. */
  function ScrapeResults(web: Web, maxResults: int): (r: seq<Listing>)
    ensures maxResults >= 0 ==> |r| <= maxResults
    ensures maxResults <= 0 ==> r == []
    ensures !PageLoaded(web) ==> r == []
    ensures PageLoaded(web) ==>
              |r| <= |web.titles.value| && |r| <= |web.companies.value| && |r| <= |web.links.value|
  {
    if PageLoaded(web) then
      var ts, cs, ls := web.titles.value, web.companies.value, web.links.value;
      Somes(Entries(ts, cs, ls, Count(ts, cs, ls, maxResults)))
    else []
  }

  /** Page order: entry k of the result comes from index `idx[k]` below the
      count, the indices strictly increase, and an index contributes exactly
      when none of its reads raised. */
  lemma ScrapeInPageOrder(web: Web, maxResults: int)
    requires PageLoaded(web)
    ensures var ts, cs, ls := web.titles.value, web.companies.value, web.links.value;
            var n := Count(ts, cs, ls, maxResults);
            var r := ScrapeResults(web, maxResults);
            var idx := SomeIndices(Entries(ts, cs, ls, n));
            && |idx| == |r|
            && (forall k :: 0 <= k < |idx| ==> idx[k] < n && EntryAt(ts[idx[k]], cs[idx[k]], ls[idx[k]]) == Some(r[k]))
            && (forall k, l :: 0 <= k < l < |idx| ==> idx[k] < idx[l])
            && (forall i :: 0 <= i < n ==> (EntryAt(ts[i], cs[i], ls[i]).Some? <==> i in idx))
  {
    var ts, cs, ls := web.titles.value, web.companies.value, web.links.value;
    SomesIndexed(Entries(ts, cs, ls, Count(ts, cs, ls, maxResults)));
  }

  /** A title element that raises when read costs its own entry and no other:
      the entries before and after it are the same as on the intact page. */
  lemma FailureSkipsOnlyThatEntry(web: Web, maxResults: int, i: nat)
    requires PageLoaded(web)
    requires i < Count(web.titles.value, web.companies.value, web.links.value, maxResults)
    ensures var ts, cs, ls := web.titles.value, web.companies.value, web.links.value;
            var n := Count(ts, cs, ls, maxResults);
            var broken := web.(titles := Returns(ts[i := ts[i].(text := Raises)]));
            var before := Somes(Entries(ts, cs, ls, n)[..i]);
            var after := Somes(Entries(ts, cs, ls, n)[i + 1..]);
            && ScrapeResults(broken, maxResults) == before + after
            && ScrapeResults(web, maxResults) == before + Somes([EntryAt(ts[i], cs[i], ls[i])]) + after
  {
    var ts, cs, ls := web.titles.value, web.companies.value, web.links.value;
    var n := Count(ts, cs, ls, maxResults);
    var ts' := ts[i := ts[i].(text := Raises)];
    var es := Entries(ts, cs, ls, n);
    assert Count(ts', cs, ls, maxResults) == n;
    assert Entries(ts', cs, ls, n) == es[i := None];
    SomesAround(es, i);
  }

  /** The `for i in range(count)` loop of `scrape_linkedin_jobs`: an entry for
      every index whose reads succeed, in index order. */
  method ExtractEntries(ts: seq<Element>, cs: seq<Element>, ls: seq<Element>, count: nat)
    returns (results: seq<Listing>)
    requires count <= |ts| && count <= |cs| && count <= |ls|
    ensures results == Somes(Entries(ts, cs, ls, count))
  {
    results := [];
    ghost var es := Entries(ts, cs, ls, count);
    for i := 0 to count
      invariant results == Somes(es[..i])
    {
      assert es[..i + 1][..i] == es[..i];
      assert es[i] == EntryAt(ts[i], cs[i], ls[i]);
      var title, company, href := ts[i].text, cs[i].text, ls[i].href;
      if title.Returns? && company.Returns? && href.Returns? {
        var jobUrl := href.value;
        var ok := true;
        if !Truthy(jobUrl) {
          // fallback: the href of the title's nearest enclosing anchor
          var anchor := ts[i].ancestorHref;
          if anchor.Returns? {
            jobUrl := anchor.value;
          } else {
            ok := false;
          }
        }
        if ok {
          assert es[i] == Some(Listing(Strip(title.value), Strip(company.value), jobUrl));
          results := results + [Listing(Strip(title.value), Strip(company.value), jobUrl)];
        } else {
          assert es[i] == None;
        }
      } else {
        assert es[i] == None;
      }
    }
    assert es[..count] == es;
  }

  /** `scrape_linkedin_jobs(query, max_results)` against the browser `web`.
      Besides the list it returns, it reports the URL the driver was sent to,
      the final driver state and how often `quit` was called: exactly once
      when a driver was created, never otherwise, and a raising `quit` does
      not change the list. */
  method ScrapeLinkedinJobs(query: seq<byte>, maxResults: int, web: Web)
    returns (results: seq<Listing>, visited: Option<string>, driver: DriverState, quitCalls: nat)
    ensures results == ScrapeResults(web, maxResults)
    ensures visited == (if web.launches then Some(BuildSearchUrl(query)) else None)
    ensures quitCalls == (if web.launches then 1 else 0)
    ensures driver == (if web.launches then Quit else Absent)
  {
    var url := BuildSearchUrl(query);
    driver, visited, quitCalls, results := Absent, None, 0, [];
    // try:
    var raised := false;
    if web.launches {
      driver := Live;
    } else {
      raised := true;
    }
    if !raised {
      visited := Some(url);
      raised := !web.navigates;
    }
    if !raised {
      // a timeout of the wait raises into the outer handler
      raised := !web.ready;
    }
    if !raised && web.titles.Returns? && web.companies.Returns? && web.links.Returns? {
      var ts, cs, ls := web.titles.value, web.companies.value, web.links.value;
      results := ExtractEntries(ts, cs, ls, Count(ts, cs, ls, maxResults));
    }
    // finally: quit the driver if one was created; a raising quit is swallowed
    if driver == Live {
      quitCalls := quitCalls + 1;
      driver := Quit;
    }
  }

  // --------------------------------------------------------------- merge

  const MaxResults: int := 10

  /** The deduplication key of `get_jobs`: `job.get("url") or ""`, and only a
      non-empty URL is kept; a job whose URL is `None` or empty has no key and
      is never appended. */
  function UrlKey(job: Listing): (k: Option<string>)
    ensures k.Some? <==> Truthy(job.link)
    ensures k.Some? ==> k.value == job.link.value
  {
    match job.link
    case Some(u) => if u != "" then Some(u) else None
    case None => None
  }

  /** The lists the queries return, in query order. */
  function Batches(webs: seq<Web>): seq<seq<Listing>>
  {
    seq(|webs|, k requires 0 <= k < |webs| => ScrapeResults(webs[k], MaxResults))
  }

  /** The merged jobs of `get_jobs` hold each non-empty URL once, no job
      without a URL, and the `seen_urls` set is the set of their URLs, of the
      same size as the list. */
  lemma MergedJobsUnique(batches: seq<seq<Listing>>)
    ensures var all := FirstSeen(Flatten(batches), UrlKey);
            && (forall i :: 0 <= i < |all| ==> all[i].link.Some? && all[i].link.value != "")
            && (forall i, j :: 0 <= i < j < |all| ==> all[i].link != all[j].link)
            && |KeySet(all, UrlKey)| == |all|
  {
    var all := FirstSeen(Flatten(batches), UrlKey);
    FirstSeenDeduplicated(Flatten(batches), UrlKey);
    DeduplicatedCount(all, UrlKey);
  }

  /** The inner loop of `get_jobs` for one query's list: append a job iff its
      URL is non-empty and not in `seen_urls`, adding the URL to the set. */
  method MergeScraped(allJobs: seq<Listing>, seenUrls: set<string>, scraped: seq<Listing>)
    returns (allJobs': seq<Listing>, seenUrls': set<string>)
    requires seenUrls == KeySet(allJobs, UrlKey)
    ensures allJobs' == Merge(allJobs, scraped, UrlKey)
    ensures seenUrls' == KeySet(allJobs', UrlKey)
  {
    allJobs', seenUrls' := allJobs, seenUrls;
    for j := 0 to |scraped|
      invariant allJobs' == Merge(allJobs, scraped[..j], UrlKey)
      invariant seenUrls' == KeySet(allJobs', UrlKey)
    {
      assert scraped[..j + 1][..j] == scraped[..j];
      var job := scraped[j];
      var url := if job.link.Some? then job.link.value else "";
      if url != "" && url !in seenUrls' {
        assert (allJobs' + [job])[..|allJobs'|] == allJobs';
        seenUrls' := seenUrls' + {url};
        allJobs' := allJobs' + [job];
      }
    }
    assert scraped[..|scraped|] == scraped;
  }

  /** The loops of `get_jobs` over all queries (the rendering is not modelled):
      `webs[k]` is the browser for `queries[k]`. The result is the first-seen
      deduplication of all the queries' lists by non-empty URL, and `seen_urls`
      is the set of URLs of the result. */
  method GetJobs(queries: seq<seq<byte>>, webs: seq<Web>) returns (allJobs: seq<Listing>, seenUrls: set<string>)
    requires |webs| == |queries|
    ensures allJobs == FirstSeen(Flatten(Batches(webs)), UrlKey)
    ensures seenUrls == KeySet(allJobs, UrlKey)
  {
    allJobs, seenUrls := [], {};
    for q := 0 to |queries|
      invariant allJobs == FirstSeen(Flatten(Batches(webs)[..q]), UrlKey)
      invariant seenUrls == KeySet(allJobs, UrlKey)
    {
      var scraped, visited, driver, quitCalls := ScrapeLinkedinJobs(queries[q], MaxResults, webs[q]);
      allJobs, seenUrls := MergeScraped(allJobs, seenUrls, scraped);
      MergeIsFirstSeen(Flatten(Batches(webs)[..q]), scraped, UrlKey);
      FlattenSnoc(Batches(webs), q);
    }
    assert Batches(webs)[..|webs|] == Batches(webs);
  }
}

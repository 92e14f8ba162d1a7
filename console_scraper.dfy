/**
  The console scraper (`run_scraper.py`): the search URL with spaces
  rewritten to `%20`, the extraction of the first ten result cards with its
  driver lifecycle, and the merge of all queries' jobs deduplicated by link
  with a per-query count of new jobs.
 */
module ConsoleScraper {
  import opened Wrappers
  import opened UrlCodec
  import opened Browser
  import opened Collect
  import opened Dedup

  // ---------------------------------------------------------------- URL

  const LocationFilter: string := "India"
  const BaseUrl: string := "https://www.linkedin.com/jobs/search/"
  const KeywordsPrefix: string := BaseUrl + "?keywords="
  const LocationParam: string := "location=" + LocationFilter

  /** The number of occurrences of `c` in `s`. */
  function CountChar(s: string, c: char): nat
  {
    if s == [] then 0 else (if s[0] == c then 1 else 0) + CountChar(s[1..], c)
  }

  /** `s.replace(' ', '%20')`: no space is left, and each space grows the text
      by two characters. */
  function EscapeSpaces(s: string): (r: string)
    ensures ' ' !in r
    ensures |r| == |s| + 2 * CountChar(s, ' ')
  {
    if s == [] then [] else (if s[0] == ' ' then "%20" else [s[0]]) + EscapeSpaces(s[1..])
  }

  /** `t.replace('%20', ' ')`, scanning left to right. */
  function UnescapeSpaces(t: string): string
  {
    if t == [] then []
    else if |t| >= 3 && t[..3] == "%20" then " " + UnescapeSpaces(t[3..])
    else [t[0]] + UnescapeSpaces(t[1..])
  }

  /** The rewrite works character by character: the rewrite of `a + b` is the
      rewrite of `a` followed by that of `b`. */
  lemma {:induction false} EscapeSpacesAppend(a: string, b: string)
    ensures EscapeSpaces(a + b) == EscapeSpaces(a) + EscapeSpaces(b)
  {
    if a != [] {
      assert (a + b)[0] == a[0];
      assert (a + b)[1..] == a[1..] + b;
      EscapeSpacesAppend(a[1..], b);
    } else {
      assert a + b == b;
    }
  }

  /** Every character other than a space, `"` and parentheses included, is
      copied unchanged. */
  lemma {:induction false} EscapeSpacesKeepsOthers(s: string)
    requires ' ' !in s
    ensures EscapeSpaces(s) == s
  {
    if s != [] {
      assert ' ' !in s[1..];
      EscapeSpacesKeepsOthers(s[1..]);
    }
  }

  /** Turning `%20` back into spaces recovers a query without `%`. */
  lemma {:induction false} EscapeSpacesRoundTrip(s: string)
    requires '%' !in s
    ensures UnescapeSpaces(EscapeSpaces(s)) == s
  {
    if s != [] {
      var rest := EscapeSpaces(s[1..]);
      assert '%' !in s[1..];
      EscapeSpacesRoundTrip(s[1..]);
      if s[0] == ' ' {
        assert ("%20" + rest)[..3] == "%20";
        assert ("%20" + rest)[3..] == rest;
      } else {
        assert ([s[0]] + rest)[1..] == rest;
        assert ([s[0]] + rest)[0] == s[0];
      }
    }
  }

  /** The rewrite is not injective: a space and the text `%20` give the same
      keywords. */
  lemma EscapeSpacesNotInjective()
    ensures EscapeSpaces(" ") == EscapeSpaces("%20") == "%20"
  {
  }

  /** `f"{BASE_URL}?keywords={query.replace(' ', '%20')}&location={LOCATION_FILTER}"`:
      the fixed prefix, then the rewritten query and nothing else, then the
      fixed suffix; the URL holds no space, and when the query holds neither
      `&` nor `#` its `keywords` parameter is exactly the rewritten query. */
  function SearchUrl(query: string): (url: string)
    ensures |url| >= |KeywordsPrefix| && url[..|KeywordsPrefix|] == KeywordsPrefix
    ensures |url| >= |LocationParam| + 1 && url[|url| - |LocationParam| - 1..] == "&" + LocationParam
    ensures |url| == |KeywordsPrefix| + |EscapeSpaces(query)| + 1 + |LocationParam|
    ensures url[|KeywordsPrefix|..|url| - |LocationParam| - 1] == EscapeSpaces(query)
    ensures ' ' !in url
    ensures '&' !in query && '#' !in query ==> ParamAfter(url, KeywordsPrefix) == Some(EscapeSpaces(query))
  {
    var escaped := EscapeSpaces(query);
    UrlAround(escaped);
    assert '&' !in query && '#' !in query ==> '&' !in escaped && '#' !in escaped by {
      if '&' !in query && '#' !in query { EscapeSpacesKeepsValueEnds(query); }
    }
    KeywordsPrefix + escaped + "&" + LocationParam
  }

  /** The shape of a URL with the keywords `value` between the fixed parts. */
  lemma UrlAround(value: string)
    requires ' ' !in value
    ensures var url := KeywordsPrefix + value + "&" + LocationParam;
            && url[..|KeywordsPrefix|] == KeywordsPrefix
            && url[|url| - |LocationParam| - 1..] == "&" + LocationParam
            && url[|KeywordsPrefix|..|url| - |LocationParam| - 1] == value
            && ' ' !in url
            && ('&' !in value && '#' !in value ==> ParamAfter(url, KeywordsPrefix) == Some(value))
  {
    FramedParam(KeywordsPrefix, value, LocationParam);
  }

  /** The rewrite introduces neither `&` nor `#`. */
  lemma {:induction false} EscapeSpacesKeepsValueEnds(s: string)
    requires '&' !in s && '#' !in s
    ensures '&' !in EscapeSpaces(s) && '#' !in EscapeSpaces(s)
  {
    if s != [] {
      assert '&' !in s[1..] && '#' !in s[1..];
      EscapeSpacesKeepsValueEnds(s[1..]);
    }
  }

  /** A query with none of `%`, `&` and `#` is read back from the URL unchanged. */
  lemma SearchUrlRoundTrip(query: string)
    requires '%' !in query && '&' !in query && '#' !in query
    ensures ParamAfter(SearchUrl(query), KeywordsPrefix) == Some(EscapeSpaces(query))
    ensures UnescapeSpaces(EscapeSpaces(query)) == query
  {
    EscapeSpacesRoundTrip(query);
  }

  /** An `&` in the query is not escaped and cuts the keywords short: for a
      query `a&b` (such as `R&D`) the `keywords` parameter is the rewrite of
      `a` alone. */
  lemma AmpersandTruncatesKeywords(a: string, b: string)
    requires '&' !in a && '#' !in a
    ensures ParamAfter(SearchUrl(a + "&" + b), KeywordsPrefix) == Some(EscapeSpaces(a))
  {
    DelimiterTruncatesKeywords(a, '&', b);
  }

  /** A `#` in the query is not escaped either and starts the URL's fragment:
      for a query `a#b` (such as `C# developer`) the `keywords` parameter is
      the rewrite of `a` alone, and `location=India` is no longer part of the
      query. */
  lemma FragmentTruncatesKeywords(a: string, b: string)
    requires '&' !in a && '#' !in a
    ensures ParamAfter(SearchUrl(a + "#" + b), KeywordsPrefix) == Some(EscapeSpaces(a))
  {
    DelimiterTruncatesKeywords(a, '#', b);
  }

  lemma DelimiterTruncatesKeywords(a: string, d: char, b: string)
    requires '&' !in a && '#' !in a && EndsValue(d)
    ensures ParamAfter(SearchUrl(a + [d] + b), KeywordsPrefix) == Some(EscapeSpaces(a))
  {
    var ea, eb := EscapeSpaces(a), EscapeSpaces(b);
    EscapeSpacesKeepsValueEnds(a);
    EscapeAroundDelimiter(a, d, b);
    Regroup(KeywordsPrefix, ea, d, eb, LocationParam);
    ParamAfterValue(KeywordsPrefix, ea, d, eb + "&" + LocationParam);
  }

  /** Any character other than a space is copied: the rewrite of `a + [d] + b`
      is the rewrite of `a`, then `d`, then the rewrite of `b`. */
  lemma {:induction false} EscapeAroundDelimiter(a: string, d: char, b: string)
    requires d != ' '
    ensures EscapeSpaces(a + [d] + b) == EscapeSpaces(a) + [d] + EscapeSpaces(b)
  {
    var tail := [d] + b;
    assert tail[0] == d && tail[1..] == b;
    assert EscapeSpaces(tail) == [d] + EscapeSpaces(b);
    EscapeSpacesAppend(a, tail);
    assert a + [d] + b == a + tail;
  }

  lemma Regroup(p: string, x: string, d: char, y: string, z: string)
    ensures p + (x + [d] + y) + "&" + z == p + x + [d] + (y + "&" + z)
  {
  }

  // ---------------------------------------------------------- extraction

  /** One result card (class `base-card`). Each field is the outcome of one
      `find_element` inside the card followed by `.text` or
      `get_attribute("href")`; `Raises` when either call raises. */
  datatype Card = Card(title: Read<string>, company: Read<string>, link: Read<Option<string>>)

  /** The entry of one card: it is produced iff its three look-ups succeed,
      and holds the texts as read, without stripping; `None` means the card is
      skipped. */
  function CardEntry(card: Card): (e: Option<Listing>)
    ensures e.Some? <==> card.title.Returns? && card.company.Returns? && card.link.Returns?
    ensures e.Some? ==> e.value == Listing(card.title.value, card.company.value, card.link.value)
  {
    match (card.title, card.company, card.link)
    case (Returns(t), Returns(c), Returns(l)) => Some(Listing(t, c, l))
    case _ => None
  }

  /** `job_elements[:10]`. */
  const TopCount: nat := 10

  function TopCards(cards: seq<Card>): (top: seq<Card>)
    ensures |top| <= TopCount && top <= cards
    ensures |cards| >= TopCount ==> |top| == TopCount
    ensures |cards| <= TopCount ==> top == cards
  {
    if |cards| <= TopCount then cards else cards[..TopCount]
  }

  function CardEntries(cards: seq<Card>): seq<Option<Listing>>
  {
    seq(|cards|, i requires 0 <= i < |cards| => CardEntry(cards[i]))
  }

  /** What the browser does for one query: launching the driver, `driver.get`,
      `find_elements` for the cards, and whether `driver.quit` raises. */
  datatype ConsoleWeb = ConsoleWeb(launches: bool, navigates: bool, cards: Read<seq<Card>>, quitRaises: bool)

  /** The exception `get_jobs_from_linkedin` lets through. */
  datatype ScrapeError = LaunchFailed | QuitFailed

  /** What `get_jobs_from_linkedin` returns or raises. A launch failure and a
      raising `quit` propagate; a raising `get` or `find_elements` gives an
      empty list; otherwise the entries of the first ten cards. */
  function ConsoleResults(web: ConsoleWeb): (r: Result<seq<Listing>, ScrapeError>)
    ensures r.Failure? <==> !web.launches || web.quitRaises
    ensures !web.launches ==> r == Failure(LaunchFailed)
    ensures r.Success? ==> |r.value| <= TopCount
    ensures r.Success? && !(web.navigates && web.cards.Returns?) ==> r.value == []
  {
    if !web.launches then Failure(LaunchFailed)
    else if web.quitRaises then Failure(QuitFailed)
    else if web.navigates && web.cards.Returns? then Success(Somes(CardEntries(TopCards(web.cards.value))))
    else Success([])
  }

  /** Page order within the first ten cards: entry k comes from card `idx[k]`,
      the indices increase, and a card among the first ten contributes
      exactly when none of its look-ups raised. */
  lemma ConsoleInPageOrder(web: ConsoleWeb)
    requires web.launches && !web.quitRaises && web.navigates && web.cards.Returns?
    ensures var top := TopCards(web.cards.value);
            var r := ConsoleResults(web).value;
            var idx := SomeIndices(CardEntries(top));
            && |idx| == |r|
            && (forall k :: 0 <= k < |idx| ==> idx[k] < |top| && CardEntry(top[idx[k]]) == Some(r[k]))
            && (forall k, l :: 0 <= k < l < |idx| ==> idx[k] < idx[l])
            && (forall i :: 0 <= i < |top| ==> (CardEntry(top[i]).Some? <==> i in idx))
  {
    SomesIndexed(CardEntries(TopCards(web.cards.value)));
  }

  /** A card whose title look-up raises costs its own entry and no other. */
  lemma CardFailureSkipsOnlyThatCard(web: ConsoleWeb, i: nat)
    requires web.launches && !web.quitRaises && web.navigates && web.cards.Returns?
    requires i < |TopCards(web.cards.value)|
    ensures var cards := web.cards.value;
            var es := CardEntries(TopCards(cards));
            var broken := web.(cards := Returns(cards[i := cards[i].(title := Raises)]));
            && ConsoleResults(broken) == Success(Somes(es[..i]) + Somes(es[i + 1..]))
            && ConsoleResults(web) == Success(Somes(es[..i]) + Somes([es[i]]) + Somes(es[i + 1..]))
  {
    var cards := web.cards.value;
    var cards' := cards[i := cards[i].(title := Raises)];
    var es := CardEntries(TopCards(cards));
    assert |TopCards(cards')| == |TopCards(cards)|;
    assert CardEntries(TopCards(cards')) == es[i := None];
    SomesAround(es, i);
  }

  /** `get_jobs_from_linkedin(query)` against the browser `web`. Besides the
      outcome it reports the URL the driver was sent to, the final driver state
      and how often `quit` was called: once a driver exists it is quit exactly
      once, whatever raised; a launch failure quits nothing. */
  method GetJobsFromLinkedin(query: string, web: ConsoleWeb)
    returns (outcome: Result<seq<Listing>, ScrapeError>, visited: Option<string>, driver: DriverState, quitCalls: nat)
    ensures outcome == ConsoleResults(web)
    ensures visited == (if web.launches then Some(SearchUrl(query)) else None)
    ensures quitCalls == (if web.launches then 1 else 0)
    ensures driver == (if web.launches then Quit else Absent)
  {
    driver, visited, quitCalls := Absent, None, 0;
    var jobList: seq<Listing> := [];
    if !web.launches {
      // the launch is outside the try: its exception propagates
      outcome := Failure(LaunchFailed);
      return;
    }
    driver := Live;
    var searchUrl := SearchUrl(query);
    // try:
    visited := Some(searchUrl);
    if web.navigates && web.cards.Returns? {
      var top := TopCards(web.cards.value);
      ghost var es := CardEntries(top);
      for i := 0 to |top|
        invariant jobList == Somes(es[..i])
      {
        assert es[..i + 1][..i] == es[..i];
        var title, company, link := top[i].title, top[i].company, top[i].link;
        if title.Returns? && company.Returns? && link.Returns? {
          jobList := jobList + [Listing(title.value, company.value, link.value)];
        }
      }
      assert es[..|top|] == es;
    }
    // finally: quit, and an exception from quit replaces the return
    quitCalls := quitCalls + 1;
    driver := Quit;
    if web.quitRaises {
      outcome := Failure(QuitFailed);
    } else {
      outcome := Success(jobList);
    }
  }

  // --------------------------------------------------------------- merge

  /** The deduplication key of `run_scraper`: the link as it is, `None` and
      the empty link included, so every job has a key and two jobs share a key
      exactly when their links are equal. */
  function LinkKey(job: Listing): (k: Option<Option<string>>)
    ensures k.Some? && k.value == job.link
  {
    Some(job.link)
  }

  /** The lists the queries returned, in query order (empty for a query that raised). */
  function ConsoleBatches(webs: seq<ConsoleWeb>): seq<seq<Listing>>
  {
    seq(|webs|, k requires 0 <= k < |webs| =>
      match ConsoleResults(webs[k]) case Success(jobs) => jobs case Failure(_) => [])
  }

  /** The scrapes of the first `n` queries returned normally. */
  predicate AllSucceeded(webs: seq<ConsoleWeb>, n: nat)
    requires n <= |webs|
  {
    forall k :: 0 <= k < n ==> ConsoleResults(webs[k]).Success?
  }

  /** The merged jobs of `run_scraper` hold each link once, `None` and the
      empty link included: only the first job with such a link survives. */
  lemma MergedLinksUnique(batches: seq<seq<Listing>>)
    ensures var all := FirstSeen(Flatten(batches), LinkKey);
            && (forall i, j :: 0 <= i < j < |all| ==> all[i].link != all[j].link)
            && |KeySet(all, LinkKey)| == |all|
  {
    var all := FirstSeen(Flatten(batches), LinkKey);
    FirstSeenDeduplicated(Flatten(batches), LinkKey);
    DeduplicatedCount(all, LinkKey);
  }

  /** The inner loop of `run_scraper` for one query's jobs: append a job iff its
      link is not in `unique_links`, add the link, and count the appended jobs. */
  method MergeNewJobs(allJobs: seq<Listing>, uniqueLinks: set<Option<string>>, jobs: seq<Listing>)
    returns (allJobs': seq<Listing>, uniqueLinks': set<Option<string>>, newJobsFound: nat)
    requires uniqueLinks == KeySet(allJobs, LinkKey)
    ensures allJobs' == Merge(allJobs, jobs, LinkKey)
    ensures uniqueLinks' == KeySet(allJobs', LinkKey)
    ensures newJobsFound == |allJobs'| - |allJobs|
  {
    allJobs', uniqueLinks', newJobsFound := allJobs, uniqueLinks, 0;
    for j := 0 to |jobs|
      invariant allJobs' == Merge(allJobs, jobs[..j], LinkKey)
      invariant uniqueLinks' == KeySet(allJobs', LinkKey)
      invariant |allJobs'| == |allJobs| + newJobsFound
    {
      assert jobs[..j + 1][..j] == jobs[..j];
      var job := jobs[j];
      if job.link !in uniqueLinks' {
        assert (allJobs' + [job])[..|allJobs'|] == allJobs';
        allJobs' := allJobs' + [job];
        uniqueLinks' := uniqueLinks' + {job.link};
        newJobsFound := newJobsFound + 1;
      }
    }
    assert jobs[..|jobs|] == jobs;
  }

  /** The links of query k's jobs that no earlier query returned. */
  function NewLinks(batches: seq<seq<Listing>>, k: nat): set<Option<string>>
    requires k < |batches|
  {
    KeySet(batches[k], LinkKey) - KeySet(Flatten(batches[..k]), LinkKey)
  }

  /** For every query so far, the count of new jobs is the number of its new
      links, and the "No new jobs" line is printed iff it has none. */
  predicate Reported(batches: seq<seq<Listing>>, newJobsFound: seq<nat>, noNewJobs: seq<bool>)
    requires |newJobsFound| == |noNewJobs| <= |batches|
  {
    forall k :: 0 <= k < |newJobsFound| ==>
      newJobsFound[k] == |NewLinks(batches, k)| && (noNewJobs[k] <==> NewLinks(batches, k) == {})
  }

  /** One iteration of the outer loop of `run_scraper` on a query whose scrape
      returned: the merged list grows to cover that query, and its count and
      "No new jobs" decision are recorded. */
  lemma RunStep(webs: seq<ConsoleWeb>, q: nat, allJobs: seq<Listing>, allJobs': seq<Listing>,
                newJobsFound: seq<nat>, noNewJobs: seq<bool>, count: nat)
    requires q < |webs| && |newJobsFound| == |noNewJobs| == q
    requires AllSucceeded(webs, q) && ConsoleResults(webs[q]).Success?
    requires allJobs == FirstSeen(Flatten(ConsoleBatches(webs)[..q]), LinkKey)
    requires allJobs' == Merge(allJobs, ConsoleResults(webs[q]).value, LinkKey)
    requires count == |allJobs'| - |allJobs|
    requires Reported(ConsoleBatches(webs), newJobsFound, noNewJobs)
    ensures AllSucceeded(webs, q + 1)
    ensures allJobs' == FirstSeen(Flatten(ConsoleBatches(webs)[..q + 1]), LinkKey)
    ensures count == |NewLinks(ConsoleBatches(webs), q)|
    ensures Reported(ConsoleBatches(webs), newJobsFound + [count], noNewJobs + [count == 0])
  {
    var batches := ConsoleBatches(webs);
    assert batches[q] == ConsoleResults(webs[q]).value;
    MergeNextBatch(batches, q, LinkKey);
    ReportedNext(batches, newJobsFound, noNewJobs, count);
  }

  /** Recording the count of the next query keeps `Reported`. */
  lemma ReportedNext(batches: seq<seq<Listing>>, newJobsFound: seq<nat>, noNewJobs: seq<bool>, count: nat)
    requires |newJobsFound| == |noNewJobs| < |batches|
    requires Reported(batches, newJobsFound, noNewJobs)
    requires count == |NewLinks(batches, |newJobsFound|)|
    ensures Reported(batches, newJobsFound + [count], noNewJobs + [count == 0])
  {
    var q := |newJobsFound|;
    var found, none := newJobsFound + [count], noNewJobs + [count == 0];
    forall k | 0 <= k < q + 1
      ensures found[k] == |NewLinks(batches, k)| && (none[k] <==> NewLinks(batches, k) == {})
    {
      if k < q {
        assert found[k] == newJobsFound[k] && none[k] == noNewJobs[k];
      } else if count == 0 {
        assert |NewLinks(batches, q)| == 0;
      }
    }
  }

  /** `run_scraper` over `queries`, with `webs[k]` the browser for `queries[k]`
      (the log lines are not modelled). It stops at the first query whose
      scrape raises, reporting that error; `newJobsFound[k]` is the count for
      query k and `noNewJobs[k]` whether the "No new jobs" line is printed.
      `unique_links` is the set of links of the merged jobs and has the same
      size. */
  method RunScraper(queries: seq<string>, webs: seq<ConsoleWeb>)
    returns (allJobs: seq<Listing>, uniqueLinks: set<Option<string>>, newJobsFound: seq<nat>,
             noNewJobs: seq<bool>, raised: Option<ScrapeError>)
    requires |webs| == |queries|
    ensures |noNewJobs| == |newJobsFound| <= |webs|
    ensures AllSucceeded(webs, |newJobsFound|)
    ensures raised.None? <==> |newJobsFound| == |webs|
    ensures raised.Some? ==> ConsoleResults(webs[|newJobsFound|]) == Failure(raised.value)
    ensures allJobs == FirstSeen(Flatten(ConsoleBatches(webs)[..|newJobsFound|]), LinkKey)
    ensures uniqueLinks == KeySet(allJobs, LinkKey) && |allJobs| == |uniqueLinks|
    ensures Reported(ConsoleBatches(webs), newJobsFound, noNewJobs)
  {
    allJobs, uniqueLinks, newJobsFound, noNewJobs, raised := [], {}, [], [], None;
    var q := 0;
    while q < |queries|
      invariant q <= |webs| && |newJobsFound| == |noNewJobs| == q
      invariant AllSucceeded(webs, q)
      invariant allJobs == FirstSeen(Flatten(ConsoleBatches(webs)[..q]), LinkKey)
      invariant uniqueLinks == KeySet(allJobs, LinkKey)
      invariant Reported(ConsoleBatches(webs), newJobsFound, noNewJobs)
    {
      var outcome, visited, driver, quitCalls := GetJobsFromLinkedin(queries[q], webs[q]);
      if outcome.Failure? {
        raised := Some(outcome.error);
        break;
      }
      var allJobs', count;
      allJobs', uniqueLinks, count := MergeNewJobs(allJobs, uniqueLinks, outcome.value);
      RunStep(webs, q, allJobs, allJobs', newJobsFound, noNewJobs, count);
      allJobs := allJobs';
      newJobsFound := newJobsFound + [count];
      noNewJobs := noNewJobs + [count == 0];
      q := q + 1;
    }
    MergedLinksUnique(ConsoleBatches(webs)[..q]);
  }
}

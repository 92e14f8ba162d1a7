# LinkedIn job scraper — a verified model

The repository holds two scripts that scrape LinkedIn job search results for a
fixed list of queries:

- `main.py`, the scraper behind a small HTTP endpoint;
- `run_scraper.py`, a console variant of it.

Both scripts do three things. They build a search URL for each query. They
drive a headless browser to that URL and read job listings (title, company,
link) off the results page. They merge the listings of all the queries into
one list that has no duplicates. This project models those three steps in
Dafny and proves what each one promises.

The modules are:

- `Wrappers`: `Option` and `Result`.
- `Browser`: the listing record, the driver's lifecycle states (`Absent`,
  `Live`, `Quit`) and `Read<T>`, the outcome of one driver call, which either
  raises or returns a value.
- `UrlCodec`: `quote_plus` over the bytes of the query. The unreserved bytes
  of section 2.3 of RFC 3986 are kept and a space becomes `+`. Every other
  byte becomes `%XX` with upper-case hex, as in section 2.1 of RFC 3986. The
  module also has the matching decoder and a reader for one query parameter.
- `Text`: Python's `str.strip`, using Python's whitespace table.
- `Collect`: the "keep every candidate whose reads succeed, skip the rest"
  loop that both extractors share.
- `Dedup`: the first-seen merge, generic in the key of a listing.
  - `FirstSeen` is the reference definition.
  - `Merge` is the loop as the scripts run it.
  - Lemmas relate the two.
- `WebScraper`: the logic of `main.py`.
- `ConsoleScraper`: the logic of `run_scraper.py`.

The browser is modelled as data that the caller chooses. Each browser call is
a field: it either returns a value or raises. So every property holds for
whatever the page contains and whatever the driver does. Each scraping method
returns its list or error together with three more facts:

- the URL the driver was sent to;
- the final state of the driver;
- how many times `quit` was called.

Its contract ties all four to a specification function.

The model follows the code, including where the code does something one
might not expect:

- In `main.py`, a timeout of the readiness wait raises into the outer
  `except`, so that query yields an empty list. Extraction is not attempted.
- `get_jobs` in `main.py` drops listings whose URL is empty or missing.
- `run_scraper` treats a `None` link and an empty link as ordinary keys, so
  the first such job is kept.
- `run_scraper.py` escapes only spaces in the query. A `&` in the query ends
  the `keywords` parameter, and a `#` starts the URL's fragment, so the search
  sees only the text before either one.
- In `run_scraper.py`, a failure to launch the driver and an exception from
  `quit` both reach the caller.

## Model

| member | source | states |
|---|---|---|
| UrlCodec.QuotePlus | main.py:34 | The encoding uses only the unreserved characters, `+` and `%`, and each byte takes one to three characters. |
| UrlCodec.EncodeByte | main.py:34 | One byte: a space becomes `+`, an unreserved byte is kept, and any other byte becomes `%` and two upper-case hex digits whose value is the byte. Every output character is one `quote_plus` can produce. |
| UrlCodec.QuotePlusHasNoDelimiters | main.py:34 | Encoded text never holds a space, `"`, `&`, `=`, `#`, `?`, `/` or `'`. |
| UrlCodec.QuotePlusHasNoValueEnd | main.py:34-36 | Encoded text holds neither `&` nor `#`, so it cannot end the `keywords` parameter or the URL's query part early. |
| UrlCodec.PlusSignsAreSpaces | main.py:34 | A space is written `+` and a literal `+` is written `%2B`. (That every `+` in a whole encoding decodes to a space follows from `QuotePlusRoundTrip`.) |
| UrlCodec.QuotePlusRoundTrip | main.py:34 | Decoding `quote_plus(s)` gives back `s` for every byte string. |
| UrlCodec.QuotePlusInjective | main.py:34 | Distinct queries have distinct encodings. |
| UrlCodec.TakeValue | main.py:36 | A parameter value is the longest prefix of the rest of the URL without `&` or `#`: it holds neither, and the character after it, if any, is one of them. |
| UrlCodec.ParamAfter | main.py:36 | The value after a prefix exists iff the URL starts with that prefix. It holds no `&` or `#`, follows the prefix in the URL, and is followed by `&`, `#` or the end of the URL. |
| UrlCodec.ParamAfterValue | main.py:36 | In `prefix + v + d + more` with `d` either `&` or `#`, the parameter after `prefix` is exactly `v` when `v` holds neither. |
| UrlCodec.FramedParam | main.py:36 | A URL `prefix + v + "&" + more` starts with the prefix, ends with `"&" + more` and holds exactly `v` between them. Its parameter after the prefix is `v` when `v` holds no `&` or `#`. |
| WebScraper.BuildSearchUrl | main.py:28-36 | The URL is the fixed `https://www.linkedin.com/jobs/search/?keywords=`, then exactly `quote_plus(query)`, then the fixed `&location=India&trk=…&pageNum=0`. Its `keywords` parameter is exactly `quote_plus(query)`. |
| WebScraper.SearchUrlRoundTrip | main.py:28-36 | Decoding the `keywords` parameter of the URL gives back the query. |
| WebScraper.SearchUrlInjective | main.py:28-36 | Distinct queries give distinct URLs. |
| Text.Strip | main.py:83-84 | The result has no leading or trailing whitespace. The input is the result with only whitespace added before and after it. |
| Text.StripUnique | main.py:83-84 | Stripping whitespace + trimmed text + whitespace gives the trimmed text, so `strip` is fully determined. |
| Text.StripIdempotent | main.py:83-84 | Stripping twice equals stripping once. |
| Collect.Somes | main.py:81-93 | The skip-on-failure loop returns no more entries than it had candidates. |
| Collect.SomesAppend | main.py:81-93 | The output for `xs + ys` is the output for `xs` followed by the output for `ys`. |
| Collect.SomesIndexed | main.py:81-93 | Each output entry comes from a distinct candidate index, and the indices increase. An index contributes iff its candidate succeeded. |
| Collect.SomesSkip | main.py:91-93 | A failing candidate is skipped and the candidates before and after it are unaffected. |
| Collect.SomesAround | main.py:81-93 | The output is the entries before position i, then entry i, then the entries after it. When candidate i raises instead, only its own entry is lost. |
| WebScraper.EntryAt | main.py:83-90 | An entry is produced iff the title, company and link reads succeed and, when the link is falsy, the ancestor-anchor lookup succeeds. Title and company are stripped texts. The link is the element's `href` when truthy, else the anchor's `href`. |
| WebScraper.Count | main.py:78-79 | The count is `min(len(titles), len(companies), len(links), max_results)`. It is at most each of them and equal to one of them. A negative `max_results` gives zero, as `range` of a negative number is empty. |
| WebScraper.ScrapeResults | main.py:56-105 | At most `max_results` entries and at most the length of each element list. Empty when `max_results <= 0` or when launch, navigation, the wait or a look-up raised. |
| WebScraper.ScrapeInPageOrder | main.py:79-90 | Entry k comes from an index below the count, the indices increase, and index i contributes iff none of its reads raised. |
| WebScraper.ExtractEntries | main.py:81-93 | The extraction loop returns the entries of the indices below the count whose reads succeed, in index order. |
| WebScraper.FailureSkipsOnlyThatEntry | main.py:81-93 | Making title i raise removes only entry i. The entries before and after it are those of the intact page. |
| WebScraper.ScrapeLinkedinJobs | main.py:56-105 | The loop's list is `ScrapeResults`. The driver is sent to the built URL iff it launched. `quit` is called exactly once iff a driver was created and the driver ends `Quit`, otherwise it is never called. A raising `quit` does not change the list. |
| Dedup.FirstSeenKeys | main.py:133-137 | The deduplicated output holds exactly the keys of the input. |
| Dedup.Step | main.py:133-137 | One loop step appends the listing iff it has a key not yet present, and otherwise leaves the output unchanged. The keys afterwards are the old keys plus the listing's key. |
| Dedup.Merge | main.py:133-137 | The merge of a batch only appends at the end of the output, appends at most one element per batch element, and appends only elements of the batch. |
| Dedup.FirstSeenSnoc | main.py:133-137 | One more input listing changes the reference output exactly as one loop step does. |
| Dedup.MergeIsFirstSeen | main.py:130-137 | Merging a batch into the first-seen output of `p` gives the first-seen output of `p + batch`. |
| Dedup.FirstSeenDeduplicated | main.py:133-137 | Every output element has a key and no two output elements share one. |
| Dedup.FirstSeenIndexed | main.py:130-137 | The output lists the input elements at first occurrences of their keys, in input order, and lists every first occurrence, so the first listing with a key wins. |
| Dedup.MergeKeys | main.py:133-137 | The keys after a merge are the keys before it plus the keys of the batch. |
| Dedup.MergeAbsorbed | main.py:133-137 | A batch whose keys are all present already changes nothing. |
| Dedup.MergeIdempotent | main.py:133-137 | Merging the same batch a second time leaves the output unchanged, and therefore the seen set too. |
| Dedup.MergeCount | run_scraper.py:80-85 | A merge appends exactly one element per key of the batch that was not yet present. |
| Dedup.DeduplicatedCount | run_scraper.py:76-84 | A deduplicated list has as many keys as elements, so the seen set is as large as the list. |
| Dedup.MergeNextBatch | run_scraper.py:78-85 | Merging query q's jobs gives the first-seen output of queries 0..q. The number appended is the number of query q's keys that no earlier query held. |
| WebScraper.MergedJobsUnique | main.py:130-137 | Every merged job has a non-empty URL, no two share a URL, and the URL set is as large as the list. |
| WebScraper.UrlKey | main.py:134-135 | A job has a key iff its URL is present and non-empty, and the key is that URL, so jobs with a `None` or empty URL are never appended. |
| WebScraper.MergeScraped | main.py:133-137 | The inner loop appends a job iff its URL is non-empty and unseen. It leaves `seen_urls` equal to the set of URLs in `all_jobs`. |
| WebScraper.GetJobs | main.py:126-139 | `all_jobs` is the first-seen deduplication by non-empty URL of all queries' lists, in query order and then page order. `seen_urls` is the set of its URLs. |
| ConsoleScraper.EscapeSpaces | run_scraper.py:41 | No space remains, and the length grows by two for each space. |
| ConsoleScraper.EscapeSpacesAppend | run_scraper.py:41 | The rewrite works character by character: the rewrite of `a + b` is the rewrite of `a` followed by that of `b`. |
| ConsoleScraper.EscapeSpacesKeepsOthers | run_scraper.py:41 | Text without spaces, including `"` and parentheses, is copied unchanged. |
| ConsoleScraper.EscapeSpacesRoundTrip | run_scraper.py:41 | Replacing `%20` by a space recovers any query that holds no `%`. |
| ConsoleScraper.EscapeSpacesNotInjective | run_scraper.py:41 | A space and the text `%20` rewrite to the same keywords. |
| ConsoleScraper.SearchUrl | run_scraper.py:20-41 | The URL is the fixed base with `?keywords=`, then exactly the rewritten query, then `&location=India`. It holds no space. Its `keywords` parameter is the rewritten query when the query holds neither `&` nor `#`. |
| ConsoleScraper.SearchUrlRoundTrip | run_scraper.py:41 | A query with no `%`, `&` or `#` is read back from the `keywords` parameter and un-escaped to itself. |
| ConsoleScraper.AmpersandTruncatesKeywords | run_scraper.py:41 | An `&` in the query is not escaped and cuts the keywords short. For a query `a&b` with no `&` or `#` in `a` (such as `R&D`), the `keywords` parameter is the rewrite of `a` alone. |
| ConsoleScraper.FragmentTruncatesKeywords | run_scraper.py:41 | A `#` in the query is not escaped and starts the URL's fragment. For a query `a#b` with no `&` or `#` in `a` (such as `C# developer`), the `keywords` parameter is the rewrite of `a` alone. |
| ConsoleScraper.EscapeAroundDelimiter | run_scraper.py:41 | Any character other than a space is copied: the rewrite of `a + d + b` is the rewrite of `a`, then `d`, then the rewrite of `b`. |
| ConsoleScraper.CardEntry | run_scraper.py:50-61 | A card contributes iff its title, company and link look-ups all succeed. Its texts are stored as read, without stripping. |
| ConsoleScraper.TopCards | run_scraper.py:49 | `job_elements[:10]` is a prefix of the page's cards. It has exactly ten cards when there are at least ten, and all of them when there are ten or fewer. |
| ConsoleScraper.ConsoleResults | run_scraper.py:38-68 | The scrape raises iff the launch fails or `quit` raises, and a launch failure raises `LaunchFailed`. Otherwise it returns at most ten jobs, and none when navigation or the card look-up raised. |
| ConsoleScraper.ConsoleInPageOrder | run_scraper.py:47-61 | Job k comes from one of the first ten cards, the card indices increase, and a card contributes iff its look-ups succeed. |
| ConsoleScraper.CardFailureSkipsOnlyThatCard | run_scraper.py:50-61 | A card whose title look-up raises costs its own entry and no other. |
| ConsoleScraper.GetJobsFromLinkedin | run_scraper.py:23-68 | The outcome is `ConsoleResults`. After a launch failure no URL is visited and `quit` is not called. Once a driver exists it visits the search URL, `quit` is called exactly once and the driver ends `Quit`, whatever raised. |
| ConsoleScraper.MergedLinksUnique | run_scraper.py:81-84 | No two merged jobs share a link, `None` and the empty link included, and `len(all_jobs) == len(unique_links)`. |
| ConsoleScraper.LinkKey | run_scraper.py:82 | Every job has a key, and the key is its link as it is, so `None` and the empty link are ordinary keys. |
| ConsoleScraper.MergeNewJobs | run_scraper.py:81-85 | The inner loop appends a job iff its link is unseen, comparing links as they are. `unique_links` stays the set of links in `all_jobs`. `new_jobs_found` is the number of jobs appended. |
| ConsoleScraper.RunStep | run_scraper.py:78-93 | One outer iteration on a query that returned extends the merged list to the first-seen output of queries 0..q. Its count equals the number of the query's new links, and the count and "No new jobs" decision are recorded. |
| ConsoleScraper.ReportedNext | run_scraper.py:80-93 | The count recorded for the next query is its number of new links, and "No new jobs" is printed iff that number is zero. |
| ConsoleScraper.RunScraper | run_scraper.py:70-93 | The scraper stops at the first query whose scrape raises and re-raises that error. `all_jobs` is the first-seen deduplication by link of the completed queries' jobs. `unique_links` is its link set, of the same size. For each query, `new_jobs_found` is the number of its links no earlier query returned, and "No new jobs" is printed iff there are none. |

## Left out

- The FastAPI routes and HTML assembly in `main.py` are not part of this model. Neither is the uvicorn entry point. They are presentation and HTTP plumbing.
- Selenium and webdriver-manager setup (the Chrome options and the service install) are not modelled. Launching the driver is one outcome: it succeeds or it raises.
- `WebDriverWait` polling, `time.sleep` and all timing are not modelled. The readiness wait is a single success-or-timeout outcome.
- `print` logging is not modelled. The one exception is the decision to print "No new jobs", which is `RunScraper`'s `noNewJobs`.
- The fixed `SEARCH_QUERIES` lists are not modelled. Queries are a parameter, with one browser outcome per query.
- The UTF-8 encoding of the query is not modelled. `BuildSearchUrl` takes the query's bytes.
- UnquotePlus is a strict decoder for ASCII text. Python's `unquote_plus` is more lenient with malformed escapes. The strict decoder is only used as the inverse of `quote_plus`.
- EntryAt: the `anchor is not None` test in `main.py` never fails, because `find_element` raises instead of returning `None`. So the `""` fallback of that line is not modelled, and a raising `find_element` skips the entry.
- Page contents are abstract. The text and `href` values are whatever the caller supplies. The DOM, class names and XPath are not interpreted.
- ScrapeLinkedinJobs and GetJobsFromLinkedin: exceptions are modelled only at the driver calls that the code performs. Errors inside Python built-ins (for example memory exhaustion) are not modelled.

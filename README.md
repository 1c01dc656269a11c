# Accessibility scanner: a verified model of the crawl-and-scan core

This project models the core of the accessibility scanner service, a single Go file `main.go`. It has five parts.

- **The crawl-and-scan orchestrator** (`crawlAndScan`). It runs a breadth-first crawl from one base URL.
  - State: a FIFO queue, a visited set and a dequeue counter.
  - Windowing: the first `offset` dequeued URLs are only explored for links; each later one is sent to the PageSpeed (Lighthouse) service.
  - The loop stops when `limit` pages have been audited or the queue is empty.
  - The run ends with a report and one of the statuses `completed`, `failed`, `partial` or `cancelled`.
- **The link extractor** (`extractLinks` / `findLinks`). It fetches a page and walks its HTML tree.
  - It takes the first parsable `href` of each anchor and resolves it against the page.
  - It keeps the link only when it is on the base host, and reduces it to scheme, host and path.
  - It removes duplicates within the page and appends new URLs to the scanner-wide discovery log.
- **The audit invoker** (`scanPageWithLighthouse`). It turns the service's answer into a page result: an error text on a call, status or decode failure, and otherwise the score and, for each failing binary check, one issue per located item, or a single issue when it locates none.
- **The request validation** of `handleScan`: defaults, ranges and check order.
- **The line parser** of `loadEnvFile`.

Modules, one per file:

- `Common` (common.dfy): `Option`, and the "append unless present" discipline (`AddAll`, `Dedup`) that both the per-page link list and the discovery log follow.
- `Links` (links.dfy): the URL library and the HTML document tree, and which anchors of a page become links.
- `Audit` (audit.dfy): the service answer and how it becomes a `PageResult`.
- `Report` (report.dfy): the report, the status classifier and the `urls_visited` list.
- `Scanner` (scanner.dfy): the `AccessibilityScanner` class, with the fields `visited` and `urlsDiscovered`, and its methods. The crawl loop is proved against the ghost predicate `Crawling` and against the reference crawl: `Advance` is one loop iteration as a function of the crawl state (queue, visited set, discovery log, dequeue order), and `After(n)` is the state after n iterations from the seed.
- `Validation` (validation.dfy): the decision `handleScan` makes before a scanner exists.
- `EnvFile` (envfile.dfy): the `.env` line transform, as written and corrected.

Collaborators the core calls but does not define are passed in as function values.

- **`UrlLib`:** `url.Parse`, `URL.ResolveReference` (section 5.2 of RFC 3986) and `URL.String`.
- **`get`:** the page fetch together with `html.Parse`.
- **`lighthouse`:** the PageSpeed call together with JSON decoding.
- **`cancel`:** the context. It is indexed by loop iteration and read once at the top of each iteration.

### Behaviour of the code worth noting

- **Cancellation does not stop the loop.** The `break` at main.go:360 leaves only the `select`. A cancellation sets the status to `cancelled` for good, and the loop goes on. `Scanner.AccessibilityScanner.Step` does exactly that.
- **The `maxPages` cap is on queue length, not on the discovery log.**
  - Links are harvested only while the queue after the dequeue is shorter than `maxPages`, and they are enqueued only while it stays shorter (main.go:369, 373, 389, 393).
  - `urlsDiscovered` grows inside the page walk with no cap (main.go:319-321).
  - So with `max_pages = 3` and the site A→{B, C}, B→{D, A}, D *is* discovered and enqueued while B is processed.
- **`visited` is set only when a URL is enqueued.** A link turned away by a full queue can be enqueued from a later page.
- **The loop runs a bounded number of iterations.** Every iteration advances `urlIndex`, and every iteration at rank `>= offset` adds a page result. So at most `max(offset,0) + max(limit,0)` iterations run. This is the loop's `decreases` clause.

## Model

| member | source | states |
|---|---|---|
| Scanner.AccessibilityScanner.constructor | main.go:115-128 | The new scanner holds the given key, base URL and window configuration; nothing is visited or discovered yet |
| Scanner.AccessibilityScanner.CrawlAndScan | main.go:338-425 | The report carries the base URL and configuration, and total_pages = number of page results. urls_visited is pointwise the URLs of the page results. The page results are exactly the audits of the dequeued URLs at rank >= offset, in dequeue order, with count WindowCount <= limit. The status is the classifier applied to "cancellation seen in some iteration". The URLs left in the queue, the visited set, the discovery log and the dequeue order are exactly the reference crawl `After` after as many iterations as were run, and the loop ends with an empty queue or with limit pages. Every enqueued URL other than the base URL is a link of a page dequeued earlier, and every logged URL other than the base URL is a candidate of one. The dequeue order is a prefix of the enqueue order. At most maxPages (or the seed) remain queued. Enqueued URLs have no duplicates and are exactly the visited set. The discovery log starts with the base URL, has no duplicates and covers every visited URL |
| Scanner.AccessibilityScanner.SeedAndLoop | main.go:350-400 | The seeding and the loop: the loop keeps `Crawling` and equals `After(urlIndex)` on every iteration, so on exit the queue, visited set, discovery log and dequeue order are `After` the iterations run, and the queue is empty or limit pages are audited |
| Scanner.AccessibilityScanner.RunLoop | main.go:350-400 | The loop keeps the `Crawling` invariant. On exit the queue, visited set, discovery log and dequeue order are the reference crawl `After` after the iterations run; the window count and audit order; the status is cancelled iff some iteration saw the signal; the queue bound; the frontier bookkeeping; the exit condition |
| Scanner.AccessibilityScanner.Step | main.go:356-399 | One iteration dequeues the head, bumps the counter, records cancellation without stopping, and visits the URL. Its new queue, visited set, log and dequeue order are exactly one `Advance` of the old ones. It preserves `Crawling`, so the window count, audit order, queue cap, no-duplicate and visited-set invariants hold again with one more URL dequeued |
| Scanner.AccessibilityScanner.Visit | main.go:364-399 | A page result is produced iff the rank is past the offset, and it is the scan of the service's answer for that URL. The new queue, visited set and log are `Harvested` of the old ones (the page's links admitted, its candidates logged) exactly when the queue is below maxPages and the URL was only explored or its audit succeeded; otherwise nothing changes. The queue only grows at its end, never past maxPages, and the frontier invariant is kept |
| Scanner.AccessibilityScanner.Seed | main.go:350-352 | The queue is [baseURL]; the base URL is the one visited and the first discovered URL |
| Scanner.AccessibilityScanner.Assemble | main.go:402-422 | total_pages = number of page results; urls_visited[i] = page_results[i].url; urls_discovered is the scanner's log; the status is `Classify` of the loop's status and the pages |
| Scanner.AccessibilityScanner.ExtractLinks | main.go:242-335 | Any fetch, status >= 400, parse or HTML failure returns an error and leaves the log unchanged; otherwise it returns exactly `PageLinks` of the page, and the log is extended by the page's candidates in document order, skipping ones already present |
| Scanner.AccessibilityScanner.FindLinks | main.go:282-331 | The recursive walk adds to the page list and to the discovery log exactly the node's subtree candidates, in document order, skipping ones already present; everything in the page list is in the log |
| Scanner.AccessibilityScanner.ChildrenLinks | main.go:328-330 | The loop over children adds the candidates of the children's subtrees in sibling order |
| Scanner.AccessibilityScanner.AnchorLinks | main.go:283-327 | The attribute loop of one node contributes at most its own candidate: the first parsable href, resolved, kept only on the base host and reduced to scheme+host+path |
| Scanner.AccessibilityScanner.Offer | main.go:301-322 | A candidate joins the page list unless already there; when new to the page, it joins the discovery log unless already there |
| Scanner.AccessibilityScanner.EnqueueLinks | main.go:372-377 | The enqueue loop equals `Admit`: a link is enqueued, and marked visited at that moment, iff it is unvisited and the queue is below maxPages |
| Scanner.AccessibilityScanner.Harvest | main.go:369-378 | The new queue, visited set and log are `Harvested` of the old ones: a failed extraction changes nothing; a successful one enqueues `Admit` of the page's links and extends the discovery log by the page's candidates |
| Scanner.AccessibilityScanner.HarvestInto | main.go:389-398 | The new queue, visited set and log are `Harvested` of the old ones, and harvesting keeps the frontier invariant: no URL enqueued twice, the visited set equals the enqueued URLs, and the log has no duplicates and covers them. The queue only grows at its end, never past maxPages |
| Scanner.AccessibilityScanner.Harvested | main.go:369-398 | The state after exploring one page: unchanged when extraction fails; otherwise the queue and visited set after `Admit` of its `PageLinks`, and the log after `AddAll` of its rendered candidates. `Harvest`, `HarvestInto` and `Visit` are proved to end in it, and `AdmitFrontier`/`AdmitFrom` give its discipline |
| Scanner.AccessibilityScanner.Advance | main.go:356-399 | One loop iteration as a function of the crawl state: nothing once the queue is empty or `limit` pages are audited; otherwise the head is dequeued and, when the rest of the queue is below maxPages and the head lies before the offset or its audit succeeded, harvested. `Step` is proved equal to it; `AdvanceDiscovery`, `AdvanceEnqueued` and `AdvanceLogged` give its meaning |
| Scanner.AccessibilityScanner.After | main.go:350-399 | The crawl state after n iterations from the seed (`[baseURL]` queued, visited and logged). `RunLoop` and `CrawlAndScan` are proved to end in it; `AfterEnqueued`, `AfterLogged` and `AfterStable` give its meaning |
| Scanner.AccessibilityScanner.AdvanceDiscovery | main.go:356-399 | One iteration of the reference crawl dequeues the head, keeps the rest of the queue in front, appends only unvisited links of the dequeued page, only adds to the visited set, and appends to the log only candidates of that page not yet logged |
| Scanner.TracedStep | main.go:356-377 | Taking one more page and adding only URLs found on it keeps every URL, the root aside, found on one of the pages taken |
| Scanner.QueueTraced | main.go:367-377 | Dequeuing the head, keeping the rest of the queue in front and enqueuing only URLs found on the head keeps every dequeued or queued URL, the base URL aside, found on a page dequeued before |
| Scanner.LogTraced | main.go:309-321 | Dequeuing a URL and only appending candidates found on it to the log keeps every logged URL, the base URL aside, found on a page dequeued before |
| Scanner.AccessibilityScanner.AdvanceEnqueued | main.go:356-399 | Every iteration, harvesting or not, keeps the enqueued URLs traced to the pages they were found on |
| Scanner.AccessibilityScanner.AdvanceLogged | main.go:356-399 | Every iteration, harvesting or not, keeps the logged URLs traced to the pages they were found on |
| Scanner.AccessibilityScanner.AfterEnqueued | main.go:350-399 | After any number of iterations every URL enqueued so far, the base URL aside, is a link of a page dequeued earlier |
| Scanner.AccessibilityScanner.AfterLogged | main.go:350-399 | After any number of iterations every URL in the discovery log, the base URL aside, is a candidate of a page dequeued earlier |
| Scanner.AccessibilityScanner.AfterStable | main.go:356 | Once the loop condition fails the reference crawl stays put: every later iteration count gives the same state, so the state the loop stops in is the result of the whole crawl |
| Scanner.AdmitFrontier | main.go:372-377 | The enqueue loop appends only unvisited links at the end, never grows the queue past maxPages, enqueues nothing twice, and keeps visited equal to the set of enqueued URLs |
| Scanner.Admit | main.go:372-377 | The enqueue loop keeps the queue as a prefix, never grows it past max(queue length, maxPages), changes nothing once the queue is full, and only adds to the visited set |
| Scanner.AdmitFrom | main.go:372-377 | Every URL the enqueue loop appends is a link of the page that was not yet visited |
| Scanner.WindowCount | main.go:367-385 | Counting one by one the ranks 0 .. n-1 that are at or above offset gives n when offset <= 0, 0 when n <= offset, and n - offset otherwise: the first offset dequeued URLs are discovery-only and the rest are audited |
| Scanner.WindowStep | main.go:367-385 | One more dequeued URL adds one audited page exactly when its rank is >= offset |
| Scanner.WindowAdvance | main.go:364-385 | One iteration extends the audited window by the new URL's audit iff its rank is past the offset, keeps the pages in dequeue order, and keeps the count <= limit |
| Scanner.WindowBound | main.go:356 | While the loop condition holds, fewer than offset + limit URLs have been dequeued |
| Scanner.CancelledBefore | main.go:357-362 | The run counts as cancelled iff the signal was seen at the top of one of the iterations so far |
| Scanner.AuditedTailAt | main.go:383-385 | The i-th page result is the scan of the matching dequeued URL in the window |
| Scanner.AuditedTailAll | main.go:383-385 | Every page result is the scan of its dequeued URL, in dequeue order |
| Scanner.Contains | main.go:301-307 | The linear duplicate scan finds x iff x is in the list |
| Scanner.AnchorRefAt | main.go:284-290 | The href used is the one at i when it is the first href that parses |
| Links.AnchorRef | main.go:284-290 | An anchor's reference is the first href whose value parses; an unparsable href is skipped, not fatal |
| Links.AnchorTarget | main.go:283-299 | A node yields a candidate exactly when it is an anchor with a parsable href whose resolution against the page is on the base host; the candidate is that URL cleaned to scheme, host and path, and it is in scope |
| Links.Targets | main.go:282-331 | The candidates of a subtree in document pre-order, duplicates kept: the node's own, then its children's in sibling order. `TargetsInScope`, `PageLinks` and `PageLinksOrder` give its meaning |
| Links.TargetsInScope | main.go:293-298 | Every candidate of a page is on the base host and carries no user, query or fragment |
| Links.PageLinks | main.go:279-334 | The link list has no duplicates; every link is the rendering of an in-scope candidate, and every candidate's rendering is in it |
| Links.PageLinksOrder | main.go:301-310 | The links keep the order of their first occurrence in the document |
| Links.PageToWalk | main.go:243-277 | Extraction goes ahead iff the fetch succeeds with status < 400, the base and page URLs parse, and the body parses as HTML |
| Links.FormatAppend | main.go:328-330 | Rendering the candidates of consecutive siblings is rendering each in turn |
| Audit.ScanPage | main.go:180-239 | The page result's error is non-empty iff the call, the status or the decoding failed, and it is then the source's error text with no issues and a zero score; otherwise it has no error, the category score and the issues of the audits |
| Audit.ErrorText | main.go:189-206 | Every failure path gives a non-empty error text |
| Audit.Decimal | main.go:198 | The %d rendering of the status code starts with '-' exactly for a negative number, is otherwise digits, and reads back as the number |
| Audit.Digits | main.go:198 | The digits of a natural number have no leading zero and read back as the number |
| Audit.AuditIssues | main.go:211-234 | A passing or non-binary audit contributes nothing. A failing one with n > 0 items contributes n issues with each item's impact, selector and snippet. A failing one without items contributes exactly one issue with impact "unknown" and empty selector and snippet. All of them carry the audit's id, title and description |
| Audit.ItemIssues | main.go:212-222 | One issue per item, in item order |
| Audit.AppendAuditIssues | main.go:211-234 | The nested loop for one audit appends exactly that audit's issues |
| Audit.MapAudits | main.go:210-236 | For any iteration order of the audits map, every issue belongs to an audit, and the issues of each audit are exactly what it contributes, in item order |
| Audit.MapsDoneStep | main.go:210-235 | Adding one more audit's issues keeps the per-audit accounting of the audits already visited |
| Audit.NoIssuesIffNoFailingAudit | main.go:210-235 | A successful scan lists no issues iff no audit is a failing binary check |
| Report.Classify | main.go:409-422 | cancelled iff cancellation was seen; failed iff not cancelled and no pages; partial iff not cancelled, some pages, and some page error; completed iff not cancelled, some pages, and no page error |
| Report.FinishStatus | main.go:409-422 | The status code at the end of crawlAndScan computes `Classify` |
| Report.VisitedUrls | main.go:405-407 | urls_visited has one entry per page result, the page's URL, in order |
| Report.NamesDistinct | main.go:347-420 | The four status strings are distinct |
| Validation.HandleScan | main.go:442-480 | A scan starts iff the URL is non-empty and parses, max_pages (0 → 50) is in [1,1000], limit (0 → 5) is in [1,100], offset >= 0, and the key is present; it then uses these values. Otherwise the answer is 400 exactly for the request errors and 500 exactly for the missing key |
| Validation.CheckOrder | main.go:442-480 | Each error is returned exactly when every earlier check passed and its own check failed |
| Validation.DefaultScan | main.go:453-459 | A request with only a URL starts the scan with max_pages 50, offset 0, limit 5 |
| Common.AddAllExtends | main.go:309-321 | The discovery log only grows by appending, and each appended entry is one of the offered URLs that was not yet present |
| Common.AddAllNoDup | main.go:312-321 | The membership check before each append keeps the log free of duplicates |
| Common.AddAllOrder | main.go:309-321 | Appended entries keep the order of their first occurrence among the offered URLs |
| Common.DedupSpec | main.go:301-310 | The per-page de-duplication keeps each distinct link once, in order of first occurrence |
| EnvFile.TrimSpace | main.go:140 | The trimmed line neither starts nor ends with white space and holds only characters of the line |
| EnvFile.TrimSpaceInfix | main.go:140 | Trimming removes white space at the two ends and nothing else |
| EnvFile.TrimSpaceIdempotent | main.go:140 | Trimming twice is trimming once |
| EnvFile.FirstEquals | main.go:146 | The split point is the first '=' of the line |
| EnvFile.ParseLine | main.go:140-159 | A line is skipped iff, once trimmed, it is blank, a comment or has no '='. Otherwise the key is the trimmed text before the first '=' of the trimmed line, and the value is the trimmed text after it without one pair of matching surrounding quotes |
| EnvFile.ParseTrimmed | main.go:142-157 | The same, on a line once trimmed: skipped iff blank, a comment or without '='; otherwise the trimmed key before the first '=' and the trimmed, unquoted value after it |
| EnvFile.ParsedKeyShape | main.go:146-151 | A parsed key holds no '=' and neither starts nor ends with white space |
| EnvFile.Unquote | main.go:152-156 | The corrected quote stripping: one pair of matching double or single quotes is removed when there are two characters to strip, otherwise the value is kept. `UnquoteAsWritten` agrees with it wherever the source does not panic, and `QuotedRoundTrip`/`PlainRoundTrip` read values back through it |
| EnvFile.UnquoteAsWritten | main.go:154-156 | The source's slice panics exactly on a value that is one quote character; otherwise it strips what the corrected `Unquote` strips |
| EnvFile.AssignAsWritten | main.go:151-157 | The assignment as written panics exactly on a lone-quote value, and otherwise assigns the key and the unquoted value |
| EnvFile.ParseTrimmedAsWritten | main.go:142-157 | On a trimmed line the loader as written panics exactly when the line is an assignment whose trimmed value is a lone quote; otherwise it skips exactly when the corrected parser does and assigns what it assigns |
| EnvFile.ParseLineAsWritten | main.go:140-159 | The same for a raw line: a panic exactly on an assignment whose trimmed value is a lone quote, and everywhere else the answer of `ParseLine` |
| EnvFile.LoneQuoteLinePanics | main.go:154-156 | The line `KEY="` makes the loader as written panic |
| EnvFile.SplitAfterKey | main.go:146-149 | A `key=value` line whose key has no '=' splits right after the key |
| EnvFile.LineTrimmed | main.go:140-144 | A `key=value` line with a trimmed key, not starting a comment, and a trimmed value is left alone by trimming and is not a comment line |
| EnvFile.LineRoundTrip | main.go:140-157 | Writing `key=value` with such a key and a trimmed value and parsing it back gives the key and the value with one pair of surrounding quotes removed |
| EnvFile.PlainRoundTrip | main.go:140-157 | A trimmed value with no pair of quotes to strip (unquoted, or a lone quote character such as in `KEY="`) parses back unchanged, '=' signs inside it included |
| EnvFile.UnquoteQuoted | main.go:152-156 | A value in a pair of double or single quotes is already trimmed and loses exactly its two quotes |
| EnvFile.QuotedRoundTrip | main.go:140-159 | `key="value"` and `key='value'` parse back to exactly (key, value), spaces, quotes and '=' inside the value included, for any trimmed key without '=' that does not start a comment |

## Left out

- HTTP plumbing: the method and JSON checks of `handleScan`, the response encoding, `handleHealth`, `handleRoot`, `sendError`, the CORS and logging middleware and `main`. These are transport, not logic.
- The HTTP client, `html.Parse`, JSON decoding and the URL library are not modelled. They are parameters (`get`, `lighthouse`, `UrlLib`), so all properties hold whatever they answer. Of a URL, only scheme, opaque part, user, host, path, query and fragment are modelled; `RawPath` and the other fields are not.
- The request headers of the page fetch (main.go:248-252) and the PageSpeed request URL with its query escaping (main.go:183-187) are not modelled. The key reaches the service as a parameter of `lighthouse`.
- `time.Sleep` (main.go:387), `time.Now` and the report's `scan_time`, the 30-second client timeout and the 10-minute context deadline are timing and are not modelled. Cancellation is the per-iteration flag `cancel(urlIndex)`.
- Float scores are exact reals. `Failing` is `score < 1.0`, and no NaN is modelled.
- `getAPIKey` and the `os` environment are not modelled: the key is a parameter. In `loadEnvFile`, `os.Open`, the line scanner and `os.Setenv` are I/O and are not modelled; only the per-line transform is.
- Scanner.AccessibilityScanner.CrawlAndScan: requires a fresh scanner (nothing visited or discovered). `handleScan` is its only caller and creates a new scanner per request (main.go:487-488).
- Audit.MapAudits: the order of issues across audits is not stated, because Go iterates the audits map in no fixed order. Only the per-audit order is stated.
- Go strings are byte sequences; here they are sequences of characters. `TrimSpace`, `FirstEquals` and the quote slice of main.go:140-156 agree with the source only on valid UTF-8 lines.
- Go's `int` width is not modelled: counters and limits are unbounded integers. The validated ranges stay far below any overflow.
- Audit.ErrorText: Go's `%v` rendering of a transport or decode error is not modelled; the reason text is an input.

## Findings

| source | as written | input that shows it | evidently intended | confidence | as-written member | corrected member |
|---|---|---|---|---|---|---|
| main.go:154-156 | A value that is a single `"` or `'` passes both the prefix and the suffix check, so `value[1 : len(value)-1]` is `value[1:0]`, which panics and ends the process while loading the `.env` file | the line `KEY="` | strip the quotes only when the value has at least two characters, leaving a lone quote as it is | not executed | EnvFile.LoneQuoteLinePanics | EnvFile.PlainRoundTrip |

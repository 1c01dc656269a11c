/** The scanner object and its breadth-first crawl (main.go:102-128,
    241-425). The network, the HTML parser and the URL library are passed in
    as function values; cancellation is a flag read once per loop iteration. */
module Scanner {
  import opened Common
  import opened Links
  import opened Audit
  import opened Report

  function Max(a: int, b: int): int {
    if a < b then b else a
  }

  /** How many of the ranks 0 .. n-1 are at or above `offset`, that is, how
      many of the first n dequeued URLs the window audits, counted rank by
      rank. In closed form: all ranks but the first max(offset, 0). */
  function WindowCount(n: nat, offset: int): (c: nat)
    ensures c == (if offset <= 0 then n else if n <= offset then 0 else n - offset)
  {
    if n == 0 then 0 else WindowCount(n - 1, offset) + (if n - 1 < offset then 0 else 1)
  }

  /** One more dequeued URL adds one audited page exactly when it is past
      the offset. */
  lemma WindowStep(n: nat, offset: int)
    ensures WindowCount(n + 1, offset) == WindowCount(n, offset) + (if n < offset then 0 else 1)
  {
  }

  /** While fewer than `limit` pages are audited, the crawl has dequeued fewer
      than offset + limit URLs. */
  lemma WindowBound(n: nat, offset: int, limit: int)
    requires WindowCount(n, offset) < limit
    ensures n < Max(offset, 0) + Max(limit, 0)
  {
  }

  /** The enqueue loop over one page's links: a link joins the queue, and is
      marked visited at that moment, when it is not yet visited and the
      queue is shorter than maxPages. */
  function Admit(queue: seq<string>, visited: set<string>, links: seq<string>, maxPages: int)
    : (r: (seq<string>, set<string>))
    ensures |r.0| >= |queue| && r.0[..|queue|] == queue
    ensures |r.0| <= Max(|queue|, maxPages)
    ensures |queue| >= maxPages ==> r == (queue, visited)
    ensures visited <= r.1
    decreases |links|
  {
    if links == [] then (queue, visited)
    else if links[0] !in visited && |queue| < maxPages then
      Admit(queue + [links[0]], visited + {links[0]}, links[1..], maxPages)
    else Admit(queue, visited, links[1..], maxPages)
  }

  /** What the enqueue loop appends are links of the page that were not
      visited when it started. */
  lemma {:induction false} AdmitFrom(queue: seq<string>, visited: set<string>, links: seq<string>, maxPages: int)
    ensures forall i | |queue| <= i < |Admit(queue, visited, links, maxPages).0| ::
      Admit(queue, visited, links, maxPages).0[i] in links && Admit(queue, visited, links, maxPages).0[i] !in visited
    decreases |links|
  {
    if links != [] {
      var l := links[0];
      if l !in visited && |queue| < maxPages {
        var queue' := queue + [l];
        AdmitFrom(queue', visited + {l}, links[1..], maxPages);
        var (q, _) := Admit(queue', visited + {l}, links[1..], maxPages);
        forall i | |queue| <= i < |q| ensures q[i] in links && q[i] !in visited {
          if i == |queue| {
            assert q[i] == queue'[i] == l;
          } else {
            assert q[i] in links[1..];
          }
        }
      } else {
        AdmitFrom(queue, visited, links[1..], maxPages);
        var (q, _) := Admit(queue, visited, links[1..], maxPages);
        forall i | |queue| <= i < |q| ensures q[i] in links {
          assert q[i] in links[1..];
        }
      }
    }
  }

  /** The frontier discipline survives an enqueue loop: the queue only grows
      at its end, by links that were not visited, never beyond maxPages when
      it started below it; nothing is enqueued twice; and the visited set
      stays exactly the set of URLs ever enqueued. */
  lemma {:induction false} AdmitFrontier(
    done: seq<string>, queue: seq<string>, visited: set<string>, links: seq<string>, maxPages: int)
    requires NoDup(done + queue)
    requires forall x :: x in visited <==> x in done + queue
    ensures var (q, v) := Admit(queue, visited, links, maxPages);
      && |q| >= |queue| && q[..|queue|] == queue
      && |q| <= Max(|queue|, maxPages)
      && (forall i | |queue| <= i < |q| :: q[i] in links && q[i] !in visited)
      && NoDup(done + q)
      && (forall x :: x in v <==> x in done + q)
    decreases |links|
  {
    if links != [] {
      var l := links[0];
      if l !in visited && |queue| < maxPages {
        var queue' := queue + [l];
        assert done + queue' == (done + queue) + [l];
        assert NoDup(done + queue') by {
          assert l !in done + queue;
        }
        AdmitFrontier(done, queue', visited + {l}, links[1..], maxPages);
        var (q, v) := Admit(queue', visited + {l}, links[1..], maxPages);
        assert q[..|queue'|] == queue';
        assert q[..|queue|] == queue'[..|queue|] == queue;
        forall i | |queue| <= i < |q| ensures q[i] in links && q[i] !in visited {
          if i == |queue| {
            assert q[i] == queue'[i] == l;
          } else {
            assert q[i] in links[1..];
          }
        }
      } else {
        AdmitFrontier(done, queue, visited, links[1..], maxPages);
        var (q, v) := Admit(queue, visited, links[1..], maxPages);
        forall i | |queue| <= i < |q| ensures q[i] in links {
          assert q[i] in links[1..];
        }
      }
    }
  }

  /** Every link a page yields is in the discovery log once its walk is done. */
  lemma PageLinksDiscovered(lib: UrlLib, current: Url, baseHost: string, doc: Node, log: seq<string>)
    ensures forall l | l in PageLinks(lib, current, baseHost, doc) ::
      l in AddAll(log, Format(lib, Targets(lib, current, baseHost, doc)))
  {
    var fs := Format(lib, Targets(lib, current, baseHost, doc));
    DedupSpec(fs);
    forall l | l in PageLinks(lib, current, baseHost, doc) ensures l in AddAll(log, fs) {
      AddAllMembers(log, fs, l);
    }
  }

  /** One more sibling subtree extends the candidates of the siblings before it. */
  lemma TargetsSeqSnoc(lib: UrlLib, current: Url, baseHost: string, ns: seq<Node>, k: nat)
    requires k < |ns|
    ensures TargetsSeq(lib, current, baseHost, ns[..k + 1])
      == TargetsSeq(lib, current, baseHost, ns[..k]) + Targets(lib, current, baseHost, ns[k])
  {
    assert ns[..k + 1][..k] == ns[..k];
  }

  /** Offering the rendering of a + b is offering that of a, then that of b. */
  lemma FormatAddAllAppend(lib: UrlLib, xs: seq<string>, a: seq<Url>, b: seq<Url>)
    ensures AddAll(xs, Format(lib, a + b)) == AddAll(AddAll(xs, Format(lib, a)), Format(lib, b))
  {
    FormatAppend(lib, a, b);
    AddAllAppend(xs, Format(lib, a), Format(lib, b));
  }

  /** Whether the cancellation signal was seen at the top of one of the
      first n iterations. */
  function CancelledBefore(cancel: nat -> bool, n: nat): (b: bool)
    ensures b <==> exists k | 0 <= k < n :: cancel(k)
  {
    if n == 0 then false else cancel(n - 1) || CancelledBefore(cancel, n - 1)
  }

  /** The service's answer for one page. */
  function Answer(lighthouse: (string, string) -> LighthouseResponse, pageURL: string, apiKey: string): LighthouseResponse {
    lighthouse(pageURL, apiKey)
  }

  /** The page results are the audits of the last |pages| dequeued URLs, in
      order: the last page is the audit of the last URL dequeued, and the
      pages before it are the audits of the URLs before it. */
  ghost predicate AuditedTail(pages: seq<PageResult>, dequeued: seq<string>,
                              lighthouse: (string, string) -> LighthouseResponse, apiKey: string)
    decreases |pages|
  {
    && |pages| <= |dequeued|
    && (pages != [] ==>
          var u := dequeued[|dequeued| - 1];
          && IsScanOf(pages[|pages| - 1], u, Answer(lighthouse, u, apiKey))
          && AuditedTail(pages[..|pages| - 1], dequeued[..|dequeued| - 1], lighthouse, apiKey))
  }

  /** Page `i` is the audit of the URL dequeued |dequeued| - |pages| + i-th. */
  lemma {:induction false} AuditedTailAt(pages: seq<PageResult>, dequeued: seq<string>,
                                         lighthouse: (string, string) -> LighthouseResponse, apiKey: string, i: nat)
    requires AuditedTail(pages, dequeued, lighthouse, apiKey)
    requires i < |pages|
    ensures var u := dequeued[|dequeued| - |pages| + i];
      IsScanOf(pages[i], u, Answer(lighthouse, u, apiKey))
    decreases |pages|
  {
    if i < |pages| - 1 {
      AuditedTailAt(pages[..|pages| - 1], dequeued[..|dequeued| - 1], lighthouse, apiKey, i);
    }
  }

  /** Every page of the window, at once. */
  lemma AuditedTailAll(pages: seq<PageResult>, dequeued: seq<string>,
                       lighthouse: (string, string) -> LighthouseResponse, apiKey: string)
    requires AuditedTail(pages, dequeued, lighthouse, apiKey)
    ensures |pages| <= |dequeued|
    ensures forall i | 0 <= i < |pages| ::
      var u := dequeued[|dequeued| - |pages| + i]; IsScanOf(pages[i], u, Answer(lighthouse, u, apiKey))
  {
    forall i | 0 <= i < |pages|
      ensures var u := dequeued[|dequeued| - |pages| + i]; IsScanOf(pages[i], u, Answer(lighthouse, u, apiKey))
    {
      AuditedTailAt(pages, dequeued, lighthouse, apiKey, i);
    }
  }

  /** One iteration of the crawl moves the audit window along by one URL: a
      URL dequeued before `offset` is explored without a page result, every
      later one adds its audit at the end. */
  lemma WindowAdvance(pages: seq<PageResult>, dequeued: seq<string>, offset: int, limit: int,
                      u: string, result: Option<PageResult>, pages': seq<PageResult>,
                      lighthouse: (string, string) -> LighthouseResponse, apiKey: string)
    requires |pages| == WindowCount(|dequeued|, offset) < limit
    requires AuditedTail(pages, dequeued, lighthouse, apiKey)
    requires result.None? <==> |dequeued| < offset
    requires result.Some? ==> IsScanOf(result.value, u, Answer(lighthouse, u, apiKey))
    requires pages' == if result.Some? then pages + [result.value] else pages
    ensures |pages'| == WindowCount(|dequeued| + 1, offset) <= Max(limit, 0)
    ensures AuditedTail(pages', dequeued + [u], lighthouse, apiKey)
  {
    WindowStep(|dequeued|, offset);
    if result.Some? {
      assert pages'[..|pages|] == pages;
      assert (dequeued + [u])[..|dequeued|] == dequeued;
    } else {
      assert pages' == [];
    }
  }

  /** The linear scans of the link extractor. */
  method Contains(xs: seq<string>, x: string) returns (found: bool)
    ensures found <==> x in xs
  {
    found := false;
    for i := 0 to |xs|
      invariant forall j | 0 <= j < i :: xs[j] != x
    {
      if xs[i] == x {
        found := true;
        break;
      }
    }
  }

  /** The first href that parses, given that the attribute at `i` is one and
      none before it is. */
  lemma AnchorRefAt(lib: UrlLib, attrs: seq<Attribute>, i: nat)
    requires i < |attrs| && attrs[i].key == "href" && lib.parse(attrs[i].val).Some?
    requires forall j | 0 <= j < i :: attrs[j].key == "href" ==> lib.parse(attrs[j].val).None?
    ensures AnchorRef(lib, attrs) == lib.parse(attrs[i].val)
  {
    var r := AnchorRef(lib, attrs);
    var m :| 0 <= m < |attrs| && attrs[m].key == "href" && lib.parse(attrs[m].val) == r &&
      forall j | 0 <= j < m :: attrs[j].key == "href" ==> lib.parse(attrs[j].val).None?;
    assert !(m < i) && !(i < m);
  }

  /** The crawl's bookkeeping over the URLs enqueued so far (the dequeued
      ones followed by the queue): it starts with the base URL, holds no URL
      twice, and is exactly the visited set; the discovery log starts with
      the base URL, holds no URL twice and covers the visited set. */
  ghost predicate Frontier(baseURL: string, enqueued: seq<string>, visited: set<string>, log: seq<string>) {
    && |enqueued| >= 1 && enqueued[0] == baseURL
    && NoDup(enqueued)
    && (forall x :: x in visited <==> x in enqueued)
    && |log| >= 1 && log[0] == baseURL
    && NoDup(log)
    && (forall x | x in visited :: x in log)
  }

  /** The crawl between two iterations: the queue, the visited set, the
      discovery log and the URLs dequeued so far, in dequeue order. */
  datatype CrawlState = CrawlState(queue: seq<string>, visited: set<string>, log: seq<string>, dequeued: seq<string>)

  /** Every URL of `urls` other than `root` was found, in the sense of
      `found`, on one of `pages`. */
  ghost predicate Traced(found: (string, string) -> bool, root: string, pages: seq<string>, urls: seq<string>) {
    forall x | x in urls && x != root :: exists j | 0 <= j < |pages| :: found(pages[j], x)
  }

  /** Taking one more page and adding only URLs found on it keeps every URL
      traced. */
  lemma TracedStep(found: (string, string) -> bool, root: string, pages: seq<string>, urls: seq<string>,
                   u: string, added: seq<string>)
    requires Traced(found, root, pages, urls)
    requires forall i | 0 <= i < |added| :: found(u, added[i])
    ensures Traced(found, root, pages + [u], urls + added)
  {
    forall x | x in urls + added && x != root
      ensures exists j | 0 <= j < |pages + [u]| :: found((pages + [u])[j], x)
    {
      if x in urls {
        var j :| 0 <= j < |pages| && found(pages[j], x);
        assert (pages + [u])[j] == pages[j];
      } else {
        var i :| 0 <= i < |added| && added[i] == x;
        assert (pages + [u])[|pages|] == u;
      }
    }
  }

  /** Dequeuing the head of the queue, keeping the rest in front and
      enqueuing only URLs found on the head keeps every URL dequeued or
      queued traced. */
  lemma QueueTraced(found: (string, string) -> bool, root: string, dequeued: seq<string>, queue: seq<string>,
                    dequeued': seq<string>, queue': seq<string>)
    requires queue != [] && dequeued' == dequeued + [queue[0]]
    requires |queue'| >= |queue| - 1 && queue'[..|queue| - 1] == queue[1..]
    requires forall i | |queue| - 1 <= i < |queue'| :: found(queue[0], queue'[i])
    requires Traced(found, root, dequeued, dequeued + queue)
    ensures Traced(found, root, dequeued', dequeued' + queue')
  {
    var added := queue'[|queue| - 1..];
    assert queue' == queue[1..] + added;
    assert queue == [queue[0]] + queue[1..];
    assert dequeued' + queue' == (dequeued + queue) + added;
    TracedStep(found, root, dequeued, dequeued + queue, queue[0], added);
  }

  /** Dequeuing `u` and only appending URLs found on it to the log keeps
      every logged URL traced. */
  lemma LogTraced(found: (string, string) -> bool, root: string, dequeued: seq<string>, log: seq<string>,
                  u: string, log': seq<string>)
    requires |log'| >= |log| && log'[..|log|] == log
    requires forall i | |log| <= i < |log'| :: found(u, log'[i])
    requires Traced(found, root, dequeued, log)
    ensures Traced(found, root, dequeued + [u], log')
  {
    var added := log'[|log|..];
    assert log' == log + added;
    TracedStep(found, root, dequeued, log, u, added);
  }

  class AccessibilityScanner {
    const apiKey: string
    const baseURL: string
    const maxPages: int
    const offset: int
    const limit: int
    var visited: set<string>
    var urlsDiscovered: seq<string>

    /** NewAccessibilityScanner: the configuration, nothing visited or
        discovered yet. */
    constructor (apiKey: string, baseURL: string, maxPages: int, offset: int, limit: int)
      ensures this.apiKey == apiKey && this.baseURL == baseURL
      ensures this.maxPages == maxPages && this.offset == offset && this.limit == limit
      ensures visited == {} && urlsDiscovered == []
    {
      this.apiKey := apiKey;
      this.baseURL := baseURL;
      this.maxPages := maxPages;
      this.offset := offset;
      this.limit := limit;
      visited := {};
      urlsDiscovered := [];
    }

    /** The duplicate checks of findLinks for one candidate: it joins the
        page's links unless already there, and, when new to the page, joins
        the discovery log unless already there. */
    method Offer(finalURL: string, links: seq<string>) returns (links': seq<string>)
      requires forall l | l in links :: l in urlsDiscovered
      modifies this`urlsDiscovered
      ensures links' == AddAll(links, [finalURL])
      ensures urlsDiscovered == AddAll(old(urlsDiscovered), [finalURL])
      ensures forall l | l in links' :: l in urlsDiscovered
    {
      links' := links;
      var isDuplicate := Contains(links, finalURL);
      if !isDuplicate {
        links' := links + [finalURL];
        var alreadyDiscovered := Contains(urlsDiscovered, finalURL);
        if !alreadyDiscovered {
          urlsDiscovered := urlsDiscovered + [finalURL];
        }
      }
    }

    /** The attribute loop of findLinks for one node: the first href that
        parses is resolved against the page, and kept, reduced, when it is on
        the base host; the loop stops at that href either way. */
    method AnchorLinks(lib: UrlLib, current: Url, baseHost: string, n: Node, links: seq<string>)
      returns (links': seq<string>)
      requires forall l | l in links :: l in urlsDiscovered
      modifies this`urlsDiscovered
      ensures links' == AddAll(links, Format(lib, OwnTarget(lib, current, baseHost, n)))
      ensures urlsDiscovered == AddAll(old(urlsDiscovered), Format(lib, OwnTarget(lib, current, baseHost, n)))
      ensures forall l | l in links' :: l in urlsDiscovered
    {
      links' := links;
      if n.nodeType == ElementNode && n.data == "a" {
        var i := 0;
        while i < |n.attrs|
          invariant 0 <= i <= |n.attrs|
          invariant forall j | 0 <= j < i :: n.attrs[j].key == "href" ==> lib.parse(n.attrs[j].val).None?
        {
          var attr := n.attrs[i];
          if attr.key == "href" {
            var linkURL := lib.parse(attr.val);
            if linkURL.Some? {
              AnchorRefAt(lib, n.attrs, i);
              var absoluteURL := lib.resolve(current, linkURL.value);
              if absoluteURL.host == baseHost {
                var cleanURL := Url(absoluteURL.scheme, "", "", absoluteURL.host, absoluteURL.path, "", "");
                var finalURL := lib.format(cleanURL);
                assert Format(lib, OwnTarget(lib, current, baseHost, n)) == [finalURL];
                links' := Offer(finalURL, links);
              }
              return;
            }
          }
          i := i + 1;
        }
      }
    }

    /** The recursive walk findLinks: the node's own candidate, then its
        children's subtrees, through the duplicate checks of Offer. */
    method FindLinks(lib: UrlLib, current: Url, baseHost: string, n: Node, links: seq<string>)
      returns (links': seq<string>)
      requires forall l | l in links :: l in urlsDiscovered
      modifies this`urlsDiscovered
      ensures links' == AddAll(links, Format(lib, Targets(lib, current, baseHost, n)))
      ensures urlsDiscovered == AddAll(old(urlsDiscovered), Format(lib, Targets(lib, current, baseHost, n)))
      ensures forall l | l in links' :: l in urlsDiscovered
      decreases n, 1
    {
      links' := AnchorLinks(lib, current, baseHost, n, links);
      links' := ChildrenLinks(lib, current, baseHost, n.children, links');
      FormatAddAllAppend(lib, links, OwnTarget(lib, current, baseHost, n), TargetsSeq(lib, current, baseHost, n.children));
      FormatAddAllAppend(lib, old(urlsDiscovered), OwnTarget(lib, current, baseHost, n),
        TargetsSeq(lib, current, baseHost, n.children));
    }

    /** The loop of findLinks over a node's children, in order. */
    method ChildrenLinks(lib: UrlLib, current: Url, baseHost: string, ns: seq<Node>, links: seq<string>)
      returns (links': seq<string>)
      requires forall l | l in links :: l in urlsDiscovered
      modifies this`urlsDiscovered
      ensures links' == AddAll(links, Format(lib, TargetsSeq(lib, current, baseHost, ns)))
      ensures urlsDiscovered == AddAll(old(urlsDiscovered), Format(lib, TargetsSeq(lib, current, baseHost, ns)))
      ensures forall l | l in links' :: l in urlsDiscovered
      decreases ns, 0
    {
      links' := links;
      var k := 0;
      while k < |ns|
        invariant 0 <= k <= |ns|
        invariant links' == AddAll(links, Format(lib, TargetsSeq(lib, current, baseHost, ns[..k])))
        invariant urlsDiscovered == AddAll(old(urlsDiscovered), Format(lib, TargetsSeq(lib, current, baseHost, ns[..k])))
        invariant forall l | l in links' :: l in urlsDiscovered
      {
        ghost var before := TargetsSeq(lib, current, baseHost, ns[..k]);
        ghost var child := Targets(lib, current, baseHost, ns[k]);
        links' := FindLinks(lib, current, baseHost, ns[k], links');
        TargetsSeqSnoc(lib, current, baseHost, ns, k);
        FormatAddAllAppend(lib, links, before, child);
        FormatAddAllAppend(lib, old(urlsDiscovered), before, child);
        k := k + 1;
      }
      assert ns[..k] == ns;
    }

    /** extractLinks: fetch and parse the page, then walk it. Any failure
        before the walk returns an error and changes nothing. */
    method ExtractLinks(lib: UrlLib, get: string -> Option<HttpResponse>, pageURL: string)
      returns (links: Option<seq<string>>)
      modifies this`urlsDiscovered
      ensures PageToWalk(lib, get, baseURL, pageURL).None? ==>
        links.None? && urlsDiscovered == old(urlsDiscovered)
      ensures PageToWalk(lib, get, baseURL, pageURL).Some? ==>
        var (current, baseHost, doc) := PageToWalk(lib, get, baseURL, pageURL).value;
        && links == Some(PageLinks(lib, current, baseHost, doc))
        && urlsDiscovered == AddAll(old(urlsDiscovered), Format(lib, Targets(lib, current, baseHost, doc)))
    {
      links := None;
      var resp := get(pageURL);
      if resp.None? || resp.value.status >= 400 {
        return;
      }
      var baseURLParsed := lib.parse(baseURL);
      if baseURLParsed.None? {
        return;
      }
      var currentURLParsed := lib.parse(pageURL);
      if currentURLParsed.None? {
        return;
      }
      var doc := resp.value.document;
      if doc.None? {
        return;
      }
      var found := FindLinks(lib, currentURLParsed.value, baseURLParsed.value.host, doc.value, []);
      links := Some(found);
    }

    /** The enqueue loop of crawlAndScan (main.go:372-377 and 392-397). */
    method EnqueueLinks(links: seq<string>, queue: seq<string>) returns (queue': seq<string>)
      modifies this`visited
      ensures (queue', visited) == Admit(queue, old(visited), links, maxPages)
    {
      queue' := queue;
      for i := 0 to |links|
        invariant Admit(queue', visited, links[i..], maxPages) == Admit(queue, old(visited), links, maxPages)
      {
        var link := links[i];
        assert links[i..][0] == link && links[i..][1..] == links[i + 1..];
        if link !in visited && |queue'| < maxPages {
          visited := visited + {link};
          queue' := queue' + [link];
        }
      }
    }

    /** The queue, the visited set and the discovery log once one page is
        harvested: unchanged when its extraction fails; otherwise its links
        go through the enqueue loop and its candidates through the log. */
    function Harvested(lib: UrlLib, get: string -> Option<HttpResponse>, pageURL: string,
                       queue: seq<string>, vis: set<string>, log: seq<string>)
      : (seq<string>, set<string>, seq<string>)
    {
      match PageToWalk(lib, get, baseURL, pageURL)
      case None => (queue, vis, log)
      case Some(walk) =>
        var (current, baseHost, doc) := walk;
        var (q, v) := Admit(queue, vis, PageLinks(lib, current, baseHost, doc), maxPages);
        (q, v, AddAll(log, Format(lib, Targets(lib, current, baseHost, doc))))
    }

    /** `x` is one of the links extracted from the page at `pageURL`. */
    predicate LinkOf(lib: UrlLib, get: string -> Option<HttpResponse>, pageURL: string, x: string) {
      match PageToWalk(lib, get, baseURL, pageURL)
      case None => false
      case Some(walk) => var (current, baseHost, doc) := walk; x in PageLinks(lib, current, baseHost, doc)
    }

    /** `x` is one of the candidates the walk of the page at `pageURL` logs. */
    predicate LoggedBy(lib: UrlLib, get: string -> Option<HttpResponse>, pageURL: string, x: string) {
      match PageToWalk(lib, get, baseURL, pageURL)
      case None => false
      case Some(walk) => var (current, baseHost, doc) := walk; x in Format(lib, Targets(lib, current, baseHost, doc))
    }

    /** Link extraction from one page and the enqueue loop over its links;
        a failed extraction adds nothing. */
    method Harvest(lib: UrlLib, get: string -> Option<HttpResponse>, pageURL: string, queue: seq<string>)
      returns (queue': seq<string>)
      modifies this`visited, this`urlsDiscovered
      ensures PageToWalk(lib, get, baseURL, pageURL).None? ==>
        queue' == queue && visited == old(visited) && urlsDiscovered == old(urlsDiscovered)
      ensures PageToWalk(lib, get, baseURL, pageURL).Some? ==>
        var (current, baseHost, doc) := PageToWalk(lib, get, baseURL, pageURL).value;
        && (queue', visited) == Admit(queue, old(visited), PageLinks(lib, current, baseHost, doc), maxPages)
        && urlsDiscovered == AddAll(old(urlsDiscovered), Format(lib, Targets(lib, current, baseHost, doc)))
      ensures (queue', visited, urlsDiscovered) == Harvested(lib, get, pageURL, queue, old(visited), old(urlsDiscovered))
    {
      var links := ExtractLinks(lib, get, pageURL);
      queue' := queue;
      if links.Some? {
        queue' := EnqueueLinks(links.value, queue);
      }
    }

    /** Harvesting one page keeps the bookkeeping: the queue only grows at its
        end and, when it was below maxPages, not past it. */
    method HarvestInto(lib: UrlLib, get: string -> Option<HttpResponse>, pageURL: string, queue: seq<string>,
                       ghost dequeued: seq<string>)
      returns (queue': seq<string>)
      requires Frontier(baseURL, dequeued + queue, visited, urlsDiscovered)
      modifies this`visited, this`urlsDiscovered
      ensures Frontier(baseURL, dequeued + queue', visited, urlsDiscovered)
      ensures |queue'| >= |queue| && queue'[..|queue|] == queue
      ensures |queue'| <= Max(|queue|, maxPages)
      ensures (queue', visited, urlsDiscovered) == Harvested(lib, get, pageURL, queue, old(visited), old(urlsDiscovered))
    {
      ghost var log := urlsDiscovered;
      queue' := Harvest(lib, get, pageURL, queue);
      var walk := PageToWalk(lib, get, baseURL, pageURL);
      if walk.Some? {
        var (current, baseHost, doc) := walk.value;
        var links := PageLinks(lib, current, baseHost, doc);
        var fs := Format(lib, Targets(lib, current, baseHost, doc));
        AdmitFrontier(dequeued, queue, old(visited), links, maxPages);
        AddAllNoDup(log, fs);
        AddAllExtends(log, fs);
        PageLinksDiscovered(lib, current, baseHost, doc, log);
        assert (dequeued + queue')[..|dequeued + queue|] == dequeued + queue;
        forall x | x in visited ensures x in urlsDiscovered {
          AddAllMembers(log, fs, x);
          if x !in old(visited) {
            var i :| 0 <= i < |dequeued + queue'| && (dequeued + queue')[i] == x;
            assert i >= |dequeued + queue|;
            assert queue'[i - |dequeued|] == x;
          }
        }
      }
    }

    /** One dequeued URL: within the offset it is only explored for links;
        after it, it is audited and explored when the audit had no error. Either
        way the exploration happens only while the queue is below maxPages. */
    method Visit(lib: UrlLib, get: string -> Option<HttpResponse>,
                 lighthouse: (string, string) -> LighthouseResponse,
                 currentURL: string, queue: seq<string>, skip: bool, ghost dequeued: seq<string>)
      returns (queue': seq<string>, pageResult: Option<PageResult>)
      requires Frontier(baseURL, dequeued + queue, visited, urlsDiscovered)
      modifies this`visited, this`urlsDiscovered
      ensures Frontier(baseURL, dequeued + queue', visited, urlsDiscovered)
      ensures |queue'| >= |queue| && queue'[..|queue|] == queue
      ensures |queue'| <= Max(|queue|, maxPages)
      ensures pageResult.None? <==> skip
      ensures pageResult.Some? ==> IsScanOf(pageResult.value, currentURL, Answer(lighthouse, currentURL, apiKey))
      ensures !(|queue| < maxPages && (skip || pageResult.value.error == "")) ==>
        queue' == queue && visited == old(visited) && urlsDiscovered == old(urlsDiscovered)
      ensures (queue', visited, urlsDiscovered) ==
        if |queue| < maxPages && (skip || Succeeded(Answer(lighthouse, currentURL, apiKey)))
        then Harvested(lib, get, currentURL, queue, old(visited), old(urlsDiscovered))
        else (queue, old(visited), old(urlsDiscovered))
    {
      queue' := queue;
      if skip {
        pageResult := None;
        if |queue| < maxPages {
          queue' := HarvestInto(lib, get, currentURL, queue, dequeued);
        }
        return;
      }
      var r := ScanPage(currentURL, Answer(lighthouse, currentURL, apiKey));
      pageResult := Some(r);
      if r.error == "" && |queue| < maxPages {
        queue' := HarvestInto(lib, get, currentURL, queue, dequeued);
      }
    }

    /** The start of crawlAndScan: the base URL is queued, visited and
        discovered. */
    method Seed() returns (queue: seq<string>)
      requires visited == {} && urlsDiscovered == []
      modifies this`visited, this`urlsDiscovered
      ensures queue == [baseURL] && visited == {baseURL} && urlsDiscovered == [baseURL]
      ensures Frontier(baseURL, queue, visited, urlsDiscovered)
    {
      queue := [baseURL];
      visited := visited + {baseURL};
      urlsDiscovered := urlsDiscovered + [baseURL];
    }

    /** One iteration of crawlAndScan on the crawl state; none once the loop
        condition fails. The head is dequeued and then harvested, provided
        the rest of the queue is shorter than maxPages and either the head
        lies before the offset or its audit succeeded. */
    function Advance(lib: UrlLib, get: string -> Option<HttpResponse>,
                     lighthouse: (string, string) -> LighthouseResponse, s: CrawlState): CrawlState
    {
      if s.queue == [] || WindowCount(|s.dequeued|, offset) >= limit then s
      else
        var u := s.queue[0];
        var rest := s.queue[1..];
        var (q, v, l) :=
          if |rest| < maxPages && (|s.dequeued| < offset || Succeeded(Answer(lighthouse, u, apiKey)))
          then Harvested(lib, get, u, rest, s.visited, s.log)
          else (rest, s.visited, s.log);
        CrawlState(q, v, l, s.dequeued + [u])
    }

    /** The crawl state after n iterations from the seed. */
    function After(lib: UrlLib, get: string -> Option<HttpResponse>,
                   lighthouse: (string, string) -> LighthouseResponse, n: nat): CrawlState
    {
      if n == 0 then CrawlState([baseURL], {baseURL}, [baseURL], [])
      else Advance(lib, get, lighthouse, After(lib, get, lighthouse, n - 1))
    }

    /** One iteration from the state after n iterations is the state after
        n + 1. */
    lemma AfterNext(lib: UrlLib, get: string -> Option<HttpResponse>,
                    lighthouse: (string, string) -> LighthouseResponse, n: nat, s: CrawlState, t: CrawlState)
      requires s == After(lib, get, lighthouse, n) && t == Advance(lib, get, lighthouse, s)
      ensures t == After(lib, get, lighthouse, n + 1)
    {
    }

    /** One iteration dequeues the head, keeps the rest of the queue in
        front, enqueues only unvisited links of the dequeued page, and only
        appends to the discovery log, candidates of that page not yet logged. */
    lemma AdvanceDiscovery(lib: UrlLib, get: string -> Option<HttpResponse>,
                           lighthouse: (string, string) -> LighthouseResponse, s: CrawlState, t: CrawlState)
      requires s.queue != [] && WindowCount(|s.dequeued|, offset) < limit
      requires t == Advance(lib, get, lighthouse, s)
      ensures t.dequeued == s.dequeued + [s.queue[0]]
      ensures |t.queue| >= |s.queue| - 1 && t.queue[..|s.queue| - 1] == s.queue[1..]
      ensures forall i | |s.queue| - 1 <= i < |t.queue| ::
        LinkOf(lib, get, s.queue[0], t.queue[i]) && t.queue[i] !in s.visited
      ensures s.visited <= t.visited
      ensures |t.log| >= |s.log| && t.log[..|s.log|] == s.log
      ensures forall i | |s.log| <= i < |t.log| :: LoggedBy(lib, get, s.queue[0], t.log[i]) && t.log[i] !in s.log
    {
      var u := s.queue[0];
      var rest := s.queue[1..];
      var walk := PageToWalk(lib, get, baseURL, u);
      if |rest| < maxPages && (|s.dequeued| < offset || Succeeded(Answer(lighthouse, u, apiKey))) && walk.Some? {
        var (current, baseHost, doc) := walk.value;
        var links := PageLinks(lib, current, baseHost, doc);
        var fs := Format(lib, Targets(lib, current, baseHost, doc));
        var admitted := Admit(rest, s.visited, links, maxPages);
        assert Harvested(lib, get, u, rest, s.visited, s.log) == (admitted.0, admitted.1, AddAll(s.log, fs));
        assert t == CrawlState(admitted.0, admitted.1, AddAll(s.log, fs), s.dequeued + [u]);
        AdmitFrom(rest, s.visited, links, maxPages);
        AddAllExtends(s.log, fs);
      } else {
        assert t == CrawlState(rest, s.visited, s.log, s.dequeued + [u]);
      }
    }

    /** Every URL dequeued or still queued, other than the base URL, is a
        link of a page dequeued earlier. */
    ghost predicate EnqueuedTraced(lib: UrlLib, get: string -> Option<HttpResponse>,
                                   dequeued: seq<string>, queue: seq<string>)
    {
      Traced((p, x) => LinkOf(lib, get, p, x), baseURL, dequeued, dequeued + queue)
    }

    /** Every logged URL, other than the base URL, is a candidate link of a
        page dequeued earlier. */
    ghost predicate LoggedTraced(lib: UrlLib, get: string -> Option<HttpResponse>,
                                 dequeued: seq<string>, log: seq<string>)
    {
      Traced((p, x) => LoggedBy(lib, get, p, x), baseURL, dequeued, log)
    }

    /** One iteration, of whatever kind, keeps the enqueued URLs traced. */
    lemma AdvanceEnqueued(lib: UrlLib, get: string -> Option<HttpResponse>,
                          lighthouse: (string, string) -> LighthouseResponse, s: CrawlState, t: CrawlState)
      requires t == Advance(lib, get, lighthouse, s)
      requires EnqueuedTraced(lib, get, s.dequeued, s.queue)
      ensures EnqueuedTraced(lib, get, t.dequeued, t.queue)
    {
      if s.queue != [] && WindowCount(|s.dequeued|, offset) < limit {
        AdvanceDiscovery(lib, get, lighthouse, s, t);
        QueueTraced((p, x) => LinkOf(lib, get, p, x), baseURL, s.dequeued, s.queue, t.dequeued, t.queue);
      }
    }

    /** One iteration, of whatever kind, keeps the logged URLs traced. */
    lemma AdvanceLogged(lib: UrlLib, get: string -> Option<HttpResponse>,
                        lighthouse: (string, string) -> LighthouseResponse, s: CrawlState, t: CrawlState)
      requires t == Advance(lib, get, lighthouse, s)
      requires LoggedTraced(lib, get, s.dequeued, s.log)
      ensures LoggedTraced(lib, get, t.dequeued, t.log)
    {
      if s.queue != [] && WindowCount(|s.dequeued|, offset) < limit {
        AdvanceDiscovery(lib, get, lighthouse, s, t);
        LogTraced((p, x) => LoggedBy(lib, get, p, x), baseURL, s.dequeued, s.log, s.queue[0], t.log);
      }
    }

    /** Where the crawl's URLs come from: after any number of iterations every
        URL enqueued, other than the base URL, is a link of a page dequeued
        earlier. */
    lemma {:induction false} AfterEnqueued(lib: UrlLib, get: string -> Option<HttpResponse>,
                                           lighthouse: (string, string) -> LighthouseResponse, n: nat)
      ensures EnqueuedTraced(lib, get, After(lib, get, lighthouse, n).dequeued, After(lib, get, lighthouse, n).queue)
    {
      if n > 0 {
        AfterEnqueued(lib, get, lighthouse, n - 1);
        AdvanceEnqueued(lib, get, lighthouse, After(lib, get, lighthouse, n - 1), After(lib, get, lighthouse, n));
      }
    }

    /** After any number of iterations every logged URL, other than the base
        URL, is a candidate link of a page dequeued earlier. */
    lemma {:induction false} AfterLogged(lib: UrlLib, get: string -> Option<HttpResponse>,
                                         lighthouse: (string, string) -> LighthouseResponse, n: nat)
      ensures LoggedTraced(lib, get, After(lib, get, lighthouse, n).dequeued, After(lib, get, lighthouse, n).log)
    {
      if n > 0 {
        AfterLogged(lib, get, lighthouse, n - 1);
        AdvanceLogged(lib, get, lighthouse, After(lib, get, lighthouse, n - 1), After(lib, get, lighthouse, n));
      }
    }

    /** Once the loop condition fails the crawl state no longer changes. */
    lemma {:induction false} AfterStable(lib: UrlLib, get: string -> Option<HttpResponse>,
                                         lighthouse: (string, string) -> LighthouseResponse, k: nat, m: nat, a: CrawlState)
      requires a == After(lib, get, lighthouse, k)
      requires a.queue == [] || WindowCount(|a.dequeued|, offset) >= limit
      requires k <= m
      ensures After(lib, get, lighthouse, m) == a
      decreases m - k
    {
      if k < m {
        AfterStable(lib, get, lighthouse, k, m - 1, a);
        assert After(lib, get, lighthouse, m) == Advance(lib, get, lighthouse, a);
      }
    }

    /** The end of crawlAndScan: the report of the audited pages. */
    method Assemble(pageResults: seq<PageResult>, status: Status) returns (result: ScanResult)
      requires status == Completed || status == Cancelled
      ensures result.baseURL == baseURL && result.scanConfig == ScanConfig(maxPages, offset, limit)
      ensures result.pageResults == pageResults && result.totalPages == |pageResults|
      ensures |result.urlsVisited| == |pageResults|
      ensures forall i | 0 <= i < |pageResults| :: result.urlsVisited[i] == pageResults[i].url
      ensures result.urlsDiscovered == urlsDiscovered
      ensures result.status == Classify(status == Cancelled, pageResults)
    {
      var urlsVisited := VisitedUrls(pageResults);
      var finalStatus := FinishStatus(status, pageResults);
      result := ScanResult(baseURL, |pageResults|, pageResults, urlsDiscovered, urlsVisited,
        ScanConfig(maxPages, offset, limit), finalStatus);
    }

    /** The state of crawlAndScan at the top of its loop, after `urlIndex`
        iterations: `dequeued` lists the URLs taken from the queue so far,
        the last of which were audited in order as `pageResults`;
        `cancelSeen` records whether cancellation was observed. */
    ghost predicate Crawling(queue: seq<string>, pageResults: seq<PageResult>, status: Status, urlIndex: nat,
                             dequeued: seq<string>, cancelSeen: bool,
                             vis: set<string>, log: seq<string>,
                             lighthouse: (string, string) -> LighthouseResponse, cancel: nat -> bool)
    {
      && |dequeued| == urlIndex
      && Frontier(baseURL, dequeued + queue, vis, log)
      && |queue| <= Max(maxPages, 1)
      && |pageResults| == WindowCount(urlIndex, offset) <= Max(limit, 0)
      && AuditedTail(pageResults, dequeued, lighthouse, apiKey)
      && cancelSeen == CancelledBefore(cancel, urlIndex)
      && status == (if cancelSeen then Cancelled else Completed)
    }

    /** One iteration of the crawl loop: the cancellation check, the dequeue,
        and the visit of the dequeued URL. */
    method Step(lib: UrlLib, get: string -> Option<HttpResponse>,
                lighthouse: (string, string) -> LighthouseResponse, cancel: nat -> bool,
                queue: seq<string>, pageResults: seq<PageResult>, status: Status, urlIndex: nat,
                ghost dequeued: seq<string>, ghost cancelSeen: bool)
      returns (queue': seq<string>, pageResults': seq<PageResult>, status': Status,
               ghost dequeued': seq<string>, ghost cancelSeen': bool)
      requires |queue| > 0 && |pageResults| < limit
      requires Crawling(queue, pageResults, status, urlIndex, dequeued, cancelSeen,
        visited, urlsDiscovered, lighthouse, cancel)
      modifies this`visited, this`urlsDiscovered
      ensures Crawling(queue', pageResults', status', urlIndex + 1, dequeued', cancelSeen',
        visited, urlsDiscovered, lighthouse, cancel)
      ensures CrawlState(queue', visited, urlsDiscovered, dequeued') ==
        Advance(lib, get, lighthouse, CrawlState(queue, old(visited), old(urlsDiscovered), dequeued))
      ensures dequeued' == dequeued + [queue[0]]
    {
      status', cancelSeen' := status, cancelSeen;
      if cancel(urlIndex) {
        status' := Cancelled;
        cancelSeen' := true;
      }
      var currentURL := queue[0];
      assert dequeued + queue == (dequeued + [currentURL]) + queue[1..];
      dequeued' := dequeued + [currentURL];
      var pageResult;
      queue', pageResult := Visit(lib, get, lighthouse, currentURL, queue[1..], urlIndex < offset, dequeued');
      pageResults' := if pageResult.Some? then pageResults + [pageResult.value] else pageResults;
      WindowAdvance(pageResults, dequeued, offset, limit, currentURL, pageResult, pageResults', lighthouse, apiKey);
    }

    /** crawlAndScan: breadth-first from the base URL. The first `offset`
        dequeued URLs are only explored for links; each later one is audited,
        until `limit` pages are audited or the queue runs dry. A page's links
        are harvested only while the queue is shorter than maxPages, and after
        an audit only when the audit had no error. A cancellation seen at the
        top of an iteration marks the run cancelled and the loop goes on.
        `dequeued` lists the URLs in the order they left the queue,
        `enqueued` in the order they joined it; with the visited set and the
        discovery log they are the reference crawl after |dequeued|
        iterations, at which the loop condition fails. */
    method CrawlAndScan(lib: UrlLib, get: string -> Option<HttpResponse>,
                        lighthouse: (string, string) -> LighthouseResponse, cancel: nat -> bool)
      returns (result: ScanResult, ghost dequeued: seq<string>, ghost enqueued: seq<string>, ghost cancelSeen: bool)
      requires visited == {} && urlsDiscovered == []
      modifies this`visited, this`urlsDiscovered
      ensures result.baseURL == baseURL && result.scanConfig == ScanConfig(maxPages, offset, limit)
      ensures result.totalPages == |result.pageResults|
      ensures |result.urlsVisited| == |result.pageResults|
      ensures forall i | 0 <= i < |result.pageResults| :: result.urlsVisited[i] == result.pageResults[i].url
      ensures |result.pageResults| == WindowCount(|dequeued|, offset) <= Max(limit, 0)
      ensures AuditedTail(result.pageResults, dequeued, lighthouse, apiKey)
      ensures forall i | 0 <= i < |result.pageResults| ::
        var u := dequeued[|dequeued| - |result.pageResults| + i];
        IsScanOf(result.pageResults[i], u, Answer(lighthouse, u, apiKey))
      ensures cancelSeen <==> exists k | 0 <= k < |dequeued| :: cancel(k)
      ensures result.status == Classify(cancelSeen, result.pageResults)
      ensures |enqueued| >= |dequeued| &&
        CrawlState(enqueued[|dequeued|..], visited, result.urlsDiscovered, dequeued) ==
        After(lib, get, lighthouse, |dequeued|)
      ensures |enqueued| >= |dequeued| && enqueued[..|dequeued|] == dequeued
      ensures |enqueued| - |dequeued| <= Max(maxPages, 1)
      ensures Frontier(baseURL, enqueued, visited, urlsDiscovered)
      ensures EnqueuedTraced(lib, get, dequeued, enqueued[|dequeued|..])
      ensures LoggedTraced(lib, get, dequeued, result.urlsDiscovered)
      ensures result.urlsDiscovered == urlsDiscovered
      ensures |enqueued| == |dequeued| || |result.pageResults| >= limit
    {
      var queue, pageResults, status;
      queue, pageResults, status, dequeued, cancelSeen := RunLoop(lib, get, lighthouse, cancel);
      enqueued := dequeued + queue;
      result := Assemble(pageResults, status);
      AuditedTailAll(pageResults, dequeued, lighthouse, apiKey);
      AfterEnqueued(lib, get, lighthouse, |dequeued|);
      AfterLogged(lib, get, lighthouse, |dequeued|);
      assert enqueued[|dequeued|..] == queue;
    }

    /** What the loop state says about the run, in the terms of the report. */
    lemma CrawlFacts(queue: seq<string>, pageResults: seq<PageResult>, status: Status, urlIndex: nat,
                     dequeued: seq<string>, cancelSeen: bool, vis: set<string>, log: seq<string>,
                     lighthouse: (string, string) -> LighthouseResponse, cancel: nat -> bool)
      requires Crawling(queue, pageResults, status, urlIndex, dequeued, cancelSeen, vis, log, lighthouse, cancel)
      ensures |pageResults| == WindowCount(|dequeued|, offset) <= Max(limit, 0)
      ensures AuditedTail(pageResults, dequeued, lighthouse, apiKey)
      ensures cancelSeen <==> exists k | 0 <= k < |dequeued| :: cancel(k)
      ensures (status == Completed || status == Cancelled) && (status == Cancelled <==> cancelSeen)
      ensures (dequeued + queue)[..|dequeued|] == dequeued
      ensures |queue| <= Max(maxPages, 1)
      ensures Frontier(baseURL, dequeued + queue, vis, log)
    {
      assert (dequeued + queue)[..|dequeued|] == dequeued;
    }

    /** The seeding and the loop of crawlAndScan, until the queue is empty or
        `limit` pages are audited: each iteration is `Advance`, so the loop
        ends in the state `After` its number of iterations, with `Crawling`
        holding. */
    method SeedAndLoop(lib: UrlLib, get: string -> Option<HttpResponse>,
                       lighthouse: (string, string) -> LighthouseResponse, cancel: nat -> bool)
      returns (queue: seq<string>, pageResults: seq<PageResult>, status: Status, urlIndex: nat,
               ghost dequeued: seq<string>, ghost cancelSeen: bool)
      requires visited == {} && urlsDiscovered == []
      modifies this`visited, this`urlsDiscovered
      ensures Crawling(queue, pageResults, status, urlIndex, dequeued, cancelSeen,
        visited, urlsDiscovered, lighthouse, cancel)
      ensures CrawlState(queue, visited, urlsDiscovered, dequeued) == After(lib, get, lighthouse, urlIndex)
      ensures |queue| == 0 || |pageResults| >= limit
    {
      queue := Seed();
      pageResults, status := [], Completed;
      urlIndex := 0;
      dequeued, cancelSeen := [], false;
      while |queue| > 0 && |pageResults| < limit
        invariant Crawling(queue, pageResults, status, urlIndex, dequeued, cancelSeen,
          visited, urlsDiscovered, lighthouse, cancel)
        invariant CrawlState(queue, visited, urlsDiscovered, dequeued) == After(lib, get, lighthouse, urlIndex)
        decreases Max(offset, 0) + Max(limit, 0) - urlIndex
      {
        WindowBound(urlIndex, offset, limit);
        ghost var before := CrawlState(queue, visited, urlsDiscovered, dequeued);
        queue, pageResults, status, dequeued, cancelSeen :=
          Step(lib, get, lighthouse, cancel, queue, pageResults, status, urlIndex, dequeued, cancelSeen);
        AfterNext(lib, get, lighthouse, urlIndex, before, CrawlState(queue, visited, urlsDiscovered, dequeued));
        urlIndex := urlIndex + 1;
      }
    }

    /** The seeding and the loop of crawlAndScan: the state is `After` the
        iterations run, at which the loop condition fails, and the window,
        the audit order, the cancellation status and the bookkeeping are
        those `Crawling` keeps. */
    method RunLoop(lib: UrlLib, get: string -> Option<HttpResponse>,
                   lighthouse: (string, string) -> LighthouseResponse, cancel: nat -> bool)
      returns (queue: seq<string>, pageResults: seq<PageResult>, status: Status,
               ghost dequeued: seq<string>, ghost cancelSeen: bool)
      requires visited == {} && urlsDiscovered == []
      modifies this`visited, this`urlsDiscovered
      ensures CrawlState(queue, visited, urlsDiscovered, dequeued) == After(lib, get, lighthouse, |dequeued|)
      ensures |pageResults| == WindowCount(|dequeued|, offset) <= Max(limit, 0)
      ensures AuditedTail(pageResults, dequeued, lighthouse, apiKey)
      ensures cancelSeen <==> exists k | 0 <= k < |dequeued| :: cancel(k)
      ensures (status == Completed || status == Cancelled) && (status == Cancelled <==> cancelSeen)
      ensures (dequeued + queue)[..|dequeued|] == dequeued
      ensures |queue| <= Max(maxPages, 1)
      ensures Frontier(baseURL, dequeued + queue, visited, urlsDiscovered)
      ensures |queue| == 0 || |pageResults| >= limit
    {
      var urlIndex;
      queue, pageResults, status, urlIndex, dequeued, cancelSeen := SeedAndLoop(lib, get, lighthouse, cancel);
      CrawlFacts(queue, pageResults, status, urlIndex, dequeued, cancelSeen, visited, urlsDiscovered, lighthouse, cancel);
    }
  }
}

/** Link filtering and normalisation of the page walk in extractLinks
    (main.go:241-335): which anchors of a parsed page become crawl candidates,
    and in what form. The URL library and the HTML parser are opaque
    collaborators, given here as function values and as a document tree. */
module Links {
  import opened Common

  /** The fields of a parsed URL that the link filter reads or writes. */
  datatype Url = Url(
    scheme: string, opaquePart: string, user: string, host: string,
    path: string, rawQuery: string, fragment: string)

  /** The URL library: parsing a string, resolving a reference against a base
      URL (section 5.2 of RFC 3986) and rendering a URL as a string. */
  datatype UrlLib = UrlLib(
    parse: string -> Option<Url>,
    resolve: (Url, Url) -> Url,
    format: Url -> string)

  /** A node of the parsed HTML document, children in document order. */
  datatype NodeType = ErrorNode | TextNode | DocumentNode | ElementNode | CommentNode | DoctypeNode | RawNode
  datatype Attribute = Attribute(namespace: string, key: string, val: string)
  datatype Node = Node(nodeType: NodeType, data: string, attrs: seq<Attribute>, children: seq<Node>)

  /** The answer of the page fetch: HTTP status and, when the body parses as
      HTML, its document tree. */
  datatype HttpResponse = HttpResponse(status: int, document: Option<Node>)

  predicate IsAnchor(n: Node) {
    n.nodeType == ElementNode && n.data == "a"
  }

  /** The reference an anchor contributes: the value of its first `href`
      attribute that parses. An `href` that does not parse is skipped and the
      scan of the attributes goes on; the first one that parses ends it. */
  function AnchorRef(lib: UrlLib, attrs: seq<Attribute>): (r: Option<Url>)
    ensures r.None? <==>
      forall i | 0 <= i < |attrs| :: attrs[i].key == "href" ==> lib.parse(attrs[i].val).None?
    ensures r.Some? ==>
      exists i | 0 <= i < |attrs| ::
        && attrs[i].key == "href" && lib.parse(attrs[i].val) == r
        && forall j | 0 <= j < i :: attrs[j].key == "href" ==> lib.parse(attrs[j].val).None?
  {
    if attrs == [] then None
    else if attrs[0].key == "href" && lib.parse(attrs[0].val).Some? then lib.parse(attrs[0].val)
    else
      var r := AnchorRef(lib, attrs[1..]);
      assert forall i | 0 <= i < |attrs[1..]| :: attrs[1..][i] == attrs[i + 1];
      r
  }

  /** A URL reduced to scheme, host and path: no user, query or fragment. */
  function Clean(u: Url): Url {
    Url(u.scheme, "", "", u.host, u.path, "", "")
  }

  /** A candidate URL is on the base host and carries nothing but scheme,
      host and path. */
  predicate InScope(u: Url, baseHost: string) {
    u.host == baseHost && u.opaquePart == "" && u.user == "" && u.rawQuery == "" && u.fragment == ""
  }

  /** What one node contributes: for an anchor whose reference resolves, against
      the current page, to a URL on the base host, that URL cleaned. */
  function AnchorTarget(lib: UrlLib, current: Url, baseHost: string, n: Node): (r: Option<Url>)
    ensures r.Some? <==>
      IsAnchor(n) && AnchorRef(lib, n.attrs).Some? &&
      lib.resolve(current, AnchorRef(lib, n.attrs).value).host == baseHost
    ensures r.Some? ==>
      InScope(r.value, baseHost) &&
      r.value == Clean(lib.resolve(current, AnchorRef(lib, n.attrs).value))
  {
    if !IsAnchor(n) then None
    else match AnchorRef(lib, n.attrs)
      case None => None
      case Some(ref) =>
        var abs := lib.resolve(current, ref);
        if abs.host == baseHost then Some(Clean(abs)) else None
  }

  /** The node's own candidate as a list of at most one URL. */
  function OwnTarget(lib: UrlLib, current: Url, baseHost: string, n: Node): seq<Url> {
    match AnchorTarget(lib, current, baseHost, n) case Some(u) => [u] case None => []
  }

  /** The candidate URLs of a subtree, in document (pre-)order, duplicates kept. */
  function Targets(lib: UrlLib, current: Url, baseHost: string, n: Node): seq<Url>
    decreases n, 1
  {
    OwnTarget(lib, current, baseHost, n) + TargetsSeq(lib, current, baseHost, n.children)
  }

  /** The candidate URLs of a list of sibling subtrees, in order. */
  function TargetsSeq(lib: UrlLib, current: Url, baseHost: string, ns: seq<Node>): seq<Url>
    decreases ns, 0
  {
    if ns == [] then []
    else TargetsSeq(lib, current, baseHost, ns[..|ns| - 1]) + Targets(lib, current, baseHost, ns[|ns| - 1])
  }

  /** Every candidate of a subtree is on the base host and reduced to scheme,
      host and path. */
  lemma {:induction false} TargetsInScope(lib: UrlLib, current: Url, baseHost: string, n: Node)
    ensures forall u | u in Targets(lib, current, baseHost, n) :: InScope(u, baseHost)
    decreases n, 1
  {
    TargetsSeqInScope(lib, current, baseHost, n.children);
  }

  lemma {:induction false} TargetsSeqInScope(lib: UrlLib, current: Url, baseHost: string, ns: seq<Node>)
    ensures forall u | u in TargetsSeq(lib, current, baseHost, ns) :: InScope(u, baseHost)
    decreases ns, 0
  {
    if ns != [] {
      TargetsSeqInScope(lib, current, baseHost, ns[..|ns| - 1]);
      TargetsInScope(lib, current, baseHost, ns[|ns| - 1]);
    }
  }

  /** The rendered form of a list of URLs. */
  function Format(lib: UrlLib, us: seq<Url>): (r: seq<string>)
    ensures |r| == |us|
    ensures forall i | 0 <= i < |us| :: r[i] == lib.format(us[i])
  {
    if us == [] then [] else [lib.format(us[0])] + Format(lib, us[1..])
  }

  lemma {:induction false} FormatAppend(lib: UrlLib, a: seq<Url>, b: seq<Url>)
    ensures Format(lib, a + b) == Format(lib, a) + Format(lib, b)
  {
    assert |Format(lib, a + b)| == |Format(lib, a) + Format(lib, b)|;
    forall i | 0 <= i < |a| + |b|
      ensures Format(lib, a + b)[i] == (Format(lib, a) + Format(lib, b))[i]
    {
      if i < |a| { assert (a + b)[i] == a[i]; } else { assert (a + b)[i] == b[i - |a|]; }
    }
  }

  /** The links of one parsed page: its candidates rendered as strings,
      duplicates removed, in order of first occurrence in the document. */
  function PageLinks(lib: UrlLib, current: Url, baseHost: string, doc: Node): (r: seq<string>)
    ensures NoDup(r)
    ensures forall l | l in r :: exists u | u in Targets(lib, current, baseHost, doc) ::
              l == lib.format(u) && InScope(u, baseHost)
    ensures forall u | u in Targets(lib, current, baseHost, doc) :: lib.format(u) in r
  {
    var ts := Targets(lib, current, baseHost, doc);
    var r := Dedup(Format(lib, ts));
    DedupSpec(Format(lib, ts));
    TargetsInScope(lib, current, baseHost, doc);
    forall l | l in r
      ensures exists u | u in ts :: l == lib.format(u) && InScope(u, baseHost)
    {
      var k :| 0 <= k < |Format(lib, ts)| && Format(lib, ts)[k] == l;
      assert ts[k] in ts;
    }
    forall u | u in ts ensures lib.format(u) in r {
      var k :| 0 <= k < |ts| && ts[k] == u;
      assert Format(lib, ts)[k] == lib.format(u);
    }
    r
  }

  /** The links of a page keep the order in which they first occur in the
      document. */
  lemma PageLinksOrder(lib: UrlLib, current: Url, baseHost: string, doc: Node)
    ensures var fs := Format(lib, Targets(lib, current, baseHost, doc));
      var r := PageLinks(lib, current, baseHost, doc);
      forall i, j | 0 <= i < j < |r| ::
        r[i] in fs && r[j] in fs && FirstIndex(fs, r[i]) < FirstIndex(fs, r[j])
  {
    DedupSpec(Format(lib, Targets(lib, current, baseHost, doc)));
  }

  /** Everything extractLinks needs before the walk: the page fetched with a
      status below 400, the base URL and the page URL parsed, the body parsed
      as HTML. Any failure makes extraction fail without effect. */
  function PageToWalk(lib: UrlLib, get: string -> Option<HttpResponse>, baseURL: string, pageURL: string)
    : (r: Option<(Url, string, Node)>)
    ensures r.Some? <==>
      && get(pageURL).Some? && get(pageURL).value.status < 400
      && lib.parse(baseURL).Some? && lib.parse(pageURL).Some?
      && get(pageURL).value.document.Some?
    ensures r.Some? ==>
      r.value == (lib.parse(pageURL).value, lib.parse(baseURL).value.host, get(pageURL).value.document.value)
  {
    match get(pageURL)
    case None => None
    case Some(resp) =>
      if resp.status >= 400 then None
      else match lib.parse(baseURL)
        case None => None
        case Some(base) =>
          match lib.parse(pageURL)
          case None => None
          case Some(cur) =>
            match resp.document
            case None => None
            case Some(doc) => Some((cur, base.host, doc))
  }
}

/** The audit invoker of scanPageWithLighthouse (main.go:179-239): how one
    answer of the PageSpeed service becomes a page result. The HTTP call and
    the JSON decoding are collaborators; their outcome is the input here.
    Scores are taken as exact reals. */
module Audit {

  /** One located node of an audit (Details.Items). */
  datatype AuditItem = AuditItem(
    nodeType: string, selector: string, snippet: string, impact: string, description: string)

  /** One entry of the audits map of the decoded answer. */
  datatype AuditEntry = AuditEntry(
    id: string, title: string, description: string, score: real,
    scoreDisplayMode: string, detailsType: string, items: seq<AuditItem>)

  /** The decoded answer: the accessibility category and the audits by identifier. */
  datatype LighthouseResult = LighthouseResult(
    accessibilityScore: real, accessibilityTitle: string, audits: map<string, AuditEntry>)

  datatype Decoding = DecodeError(reason: string) | Decoded(result: LighthouseResult)

  /** What the service call produced: a transport error, or an HTTP answer
      with its status, its body and the outcome of decoding that body. */
  datatype LighthouseResponse =
    | CallFailed(reason: string)
    | Answered(status: int, body: string, decoding: Decoding)

  datatype AccessibilityIssue = AccessibilityIssue(
    auditId: string, title: string, description: string,
    impact: string, selector: string, snippet: string)

  datatype PageResult = PageResult(
    url: string, accessibilityScore: real, issues: seq<AccessibilityIssue>, error: string)

  const StatusOK := 200

  /** The beginnings of the three error texts. */
  const CallFailedPrefix := "Failed to call Lighthouse API: "
  const StatusErrorPrefix := "Lighthouse API error (status "
  const StatusErrorInfix := "): "
  const DecodeFailedPrefix := "Failed to decode Lighthouse response: "

  /** The number a string of decimal digits denotes, most significant first. */
  function DigitsValue(s: string): int {
    if s == [] then 0 else 10 * DigitsValue(s[..|s| - 1]) + (s[|s| - 1] as int - '0' as int)
  }

  /** The number a Go %d rendering denotes: digits, after a '-' for a
      negative number. */
  function DecimalValue(s: string): int {
    if s != [] && s[0] == '-' then -DigitsValue(s[1..]) else DigitsValue(s)
  }

  /** Go's %d rendering of an integer: a '-' exactly for a negative number,
      then the digits of its magnitude, which read back as the number. */
  function Decimal(n: int): (s: string)
    ensures |s| > 0 && (s[0] == '-' <==> n < 0)
    ensures forall i | (if n < 0 then 1 else 0) <= i < |s| :: '0' <= s[i] <= '9'
    ensures DecimalValue(s) == n
  {
    if n < 0 then
      var d := Digits(-n);
      assert ("-" + d)[1..] == d;
      "-" + d
    else Digits(n)
  }

  /** The decimal digits of n, most significant first, with no leading zero. */
  function Digits(n: nat): (s: string)
    ensures |s| > 0 && (s[0] == '0' ==> s == "0")
    ensures forall i | 0 <= i < |s| :: '0' <= s[i] <= '9'
    ensures DigitsValue(s) == n
  {
    if n < 10 then
      assert [DigitChar(n)][..0] == [];
      [DigitChar(n)]
    else
      var d := Digits(n / 10);
      assert (d + [DigitChar(n % 10)])[..|d|] == d;
      d + [DigitChar(n % 10)]
  }

  function DigitChar(d: nat): (c: char)
    requires d < 10
    ensures '0' <= c <= '9' && c as int - '0' as int == d
  {
    ('0' as int + d) as char
  }

  /** The answer decoded with status 200. */
  predicate Succeeded(resp: LighthouseResponse) {
    resp.Answered? && resp.status == StatusOK && resp.decoding.Decoded?
  }

  /** The error text recorded for an answer that did not succeed. */
  function ErrorText(resp: LighthouseResponse): (e: string)
    requires !Succeeded(resp)
    ensures e != ""
  {
    match resp
    case CallFailed(reason) => CallFailedPrefix + reason
    case Answered(status, body, decoding) =>
      if status != StatusOK then StatusErrorPrefix + Decimal(status) + StatusErrorInfix + body
      else DecodeFailedPrefix + decoding.reason
  }

  /** An audit reports issues when it is a pass/fail check that did not pass. */
  predicate Failing(a: AuditEntry) {
    a.scoreDisplayMode == "binary" && a.score < 1.0
  }

  /** The issue recorded for one located node of an audit. */
  function ItemIssue(id: string, a: AuditEntry, item: AuditItem): AccessibilityIssue {
    AccessibilityIssue(id, a.title, a.description, item.impact, item.selector, item.snippet)
  }

  /** The issue recorded for a failing audit that located no node. */
  function UnknownIssue(id: string, a: AuditEntry): AccessibilityIssue {
    AccessibilityIssue(id, a.title, a.description, "unknown", "", "")
  }

  function ItemIssues(id: string, a: AuditEntry, items: seq<AuditItem>): (r: seq<AccessibilityIssue>)
    ensures |r| == |items|
    ensures forall k | 0 <= k < |items| :: r[k] == ItemIssue(id, a, items[k])
  {
    if items == [] then [] else ItemIssues(id, a, items[..|items| - 1]) + [ItemIssue(id, a, items[|items| - 1])]
  }

  /** The issues one audit contributes, in item order: none when it passes or
      is not a pass/fail check; one per located node when it fails; exactly one
      rule-level issue of impact "unknown" when it fails without located nodes. */
  function AuditIssues(id: string, a: AuditEntry): (r: seq<AccessibilityIssue>)
    ensures !Failing(a) ==> r == []
    ensures Failing(a) && a.items != [] ==>
      |r| == |a.items| &&
      forall k | 0 <= k < |r| ::
        r[k].impact == a.items[k].impact && r[k].selector == a.items[k].selector &&
        r[k].snippet == a.items[k].snippet
    ensures Failing(a) && a.items == [] ==>
      |r| == 1 && r[0].impact == "unknown" && r[0].selector == "" && r[0].snippet == ""
    ensures forall k | 0 <= k < |r| ::
      r[k].auditId == id && r[k].title == a.title && r[k].description == a.description
  {
    if !Failing(a) then []
    else if a.items == [] then [UnknownIssue(id, a)]
    else ItemIssues(id, a, a.items)
  }

  /** The issues of a list that belong to audit `id`, in list order. */
  function OfAudit(issues: seq<AccessibilityIssue>, id: string): seq<AccessibilityIssue> {
    if issues == [] then []
    else OfAudit(issues[..|issues| - 1], id) + (if issues[|issues| - 1].auditId == id then [issues[|issues| - 1]] else [])
  }

  lemma {:induction false} OfAuditAppend(a: seq<AccessibilityIssue>, b: seq<AccessibilityIssue>, id: string)
    ensures OfAudit(a + b, id) == OfAudit(a, id) + OfAudit(b, id)
    decreases |b|
  {
    if b == [] {
      assert a + b == a;
    } else {
      assert (a + b)[..|a + b| - 1] == a + b[..|b| - 1];
      OfAuditAppend(a, b[..|b| - 1], id);
    }
  }

  lemma {:induction false} OfAuditNone(issues: seq<AccessibilityIssue>, id: string)
    requires forall k | 0 <= k < |issues| :: issues[k].auditId != id
    ensures OfAudit(issues, id) == []
    decreases |issues|
  {
    if issues != [] {
      OfAuditNone(issues[..|issues| - 1], id);
    }
  }

  lemma {:induction false} OfAuditAll(issues: seq<AccessibilityIssue>, id: string)
    requires forall k | 0 <= k < |issues| :: issues[k].auditId == id
    ensures OfAudit(issues, id) == issues
    decreases |issues|
  {
    if issues != [] {
      OfAuditAll(issues[..|issues| - 1], id);
    }
  }

  /** An issue list found its place in the decoded audits: every issue comes
      from one of them, and the issues of each audit are exactly the ones that
      audit contributes, in item order. How the audits interleave is left open,
      because the audits map is iterated in no particular order. */
  ghost predicate MapsAudits(issues: seq<AccessibilityIssue>, audits: map<string, AuditEntry>) {
    && (forall k | 0 <= k < |issues| :: issues[k].auditId in audits)
    && (forall id | id in audits :: OfAudit(issues, id) == AuditIssues(id, audits[id]))
  }

  /** What scanning one page produces from the service's answer: an error and
      nothing else when the call, the status or the decoding failed; otherwise
      no error, the category score and the issues of the failing audits. */
  ghost predicate IsScanOf(r: PageResult, pageURL: string, resp: LighthouseResponse) {
    && r.url == pageURL
    && (!Succeeded(resp) ==>
          r.error == ErrorText(resp) && r.issues == [] && r.accessibilityScore == 0.0)
    && (Succeeded(resp) ==>
          && r.error == ""
          && r.accessibilityScore == resp.decoding.result.accessibilityScore
          && MapsAudits(r.issues, resp.decoding.result.audits))
  }

  /** scanPageWithLighthouse after the call: the error paths in the order the
      source checks them, then the score and the issues of the audits. */
  method ScanPage(pageURL: string, resp: LighthouseResponse) returns (r: PageResult)
    ensures IsScanOf(r, pageURL, resp)
    ensures r.error != "" <==> !Succeeded(resp)
  {
    r := PageResult(pageURL, 0.0, [], "");
    if resp.CallFailed? {
      r := r.(error := CallFailedPrefix + resp.reason);
      return;
    }
    if resp.status != StatusOK {
      r := r.(error := StatusErrorPrefix + Decimal(resp.status) + StatusErrorInfix + resp.body);
      return;
    }
    if resp.decoding.DecodeError? {
      r := r.(error := DecodeFailedPrefix + resp.decoding.reason);
      return;
    }
    var lighthouse := resp.decoding.result;
    r := r.(accessibilityScore := lighthouse.accessibilityScore);
    var issues := MapAudits(lighthouse.audits);
    r := r.(issues := issues);
  }

  /** The loop over the audits map, visited in an unspecified order. */
  method MapAudits(audits: map<string, AuditEntry>) returns (issues: seq<AccessibilityIssue>)
    ensures MapsAudits(issues, audits)
  {
    issues := [];
    var remaining := audits.Keys;
    ghost var done: set<string> := {};
    while remaining != {}
      invariant remaining <= audits.Keys && done == audits.Keys - remaining
      invariant MapsDone(issues, audits, done)
      decreases remaining
    {
      var auditId :| auditId in remaining;
      MapsDoneStep(issues, audits, done, auditId);
      issues := AppendAuditIssues(issues, auditId, audits[auditId]);
      remaining := remaining - {auditId};
      done := done + {auditId};
    }
  }

  /** The issue list accounts for exactly the audits in `done`. */
  ghost predicate MapsDone(issues: seq<AccessibilityIssue>, audits: map<string, AuditEntry>, done: set<string>)
    requires done <= audits.Keys
  {
    && (forall k | 0 <= k < |issues| :: issues[k].auditId in done)
    && (forall id | id in done :: OfAudit(issues, id) == AuditIssues(id, audits[id]))
  }

  lemma MapsDoneStep(issues: seq<AccessibilityIssue>, audits: map<string, AuditEntry>, done: set<string>, auditId: string)
    requires done <= audits.Keys && auditId in audits && auditId !in done
    requires MapsDone(issues, audits, done)
    ensures MapsDone(issues + AuditIssues(auditId, audits[auditId]), audits, done + {auditId})
  {
    var added := AuditIssues(auditId, audits[auditId]);
    var after := issues + added;
    forall k | 0 <= k < |after| ensures after[k].auditId in done + {auditId} {
      if k >= |issues| { assert after[k] == added[k - |issues|]; }
    }
    forall id | id in done + {auditId}
      ensures OfAudit(after, id) == AuditIssues(id, audits[id])
    {
      OfAuditAppend(issues, added, id);
      if id == auditId {
        OfAuditNone(issues, id);
        OfAuditAll(added, id);
      } else {
        OfAuditNone(added, id);
      }
    }
  }

  /** The body of the audits loop for one audit: one issue per item of a
      failing binary audit, or the single "unknown" issue when it has none. */
  method AppendAuditIssues(issues: seq<AccessibilityIssue>, auditId: string, audit: AuditEntry)
    returns (issues': seq<AccessibilityIssue>)
    ensures issues' == issues + AuditIssues(auditId, audit)
  {
    issues' := issues;
    if audit.scoreDisplayMode == "binary" && audit.score < 1.0 {
      var j := 0;
      while j < |audit.items|
        invariant 0 <= j <= |audit.items|
        invariant issues' == issues + ItemIssues(auditId, audit, audit.items[..j])
      {
        var item := audit.items[j];
        issues' := issues' + [AccessibilityIssue(auditId, audit.title, audit.description,
                                                 item.impact, item.selector, item.snippet)];
        assert audit.items[..j + 1][..j] == audit.items[..j];
        j := j + 1;
      }
      assert audit.items[..j] == audit.items;
      if |audit.items| == 0 {
        issues' := issues' + [AccessibilityIssue(auditId, audit.title, audit.description, "unknown", "", "")];
      }
    }
  }

  /** The issue at position `k` is among the issues of its own audit. */
  lemma {:induction false} OfAuditHas(issues: seq<AccessibilityIssue>, k: nat)
    requires k < |issues|
    ensures issues[k] in OfAudit(issues, issues[k].auditId)
    decreases |issues|
  {
    if k < |issues| - 1 {
      OfAuditHas(issues[..|issues| - 1], k);
    }
  }

  /** A successful scan lists no issue exactly when no audit is a failing
      binary check. */
  lemma NoIssuesIffNoFailingAudit(issues: seq<AccessibilityIssue>, audits: map<string, AuditEntry>)
    requires MapsAudits(issues, audits)
    ensures issues == [] <==> forall id | id in audits :: !Failing(audits[id])
  {
    if issues != [] {
      OfAuditHas(issues, 0);
      assert issues[0].auditId in audits;
    } else {
      forall id | id in audits ensures !Failing(audits[id]) {
        assert OfAudit(issues, id) == [];
      }
    }
  }
}

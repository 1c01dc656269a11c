/** The scan report and its status (main.go:68-85, 337-348, 402-422). */
module Report {
  import opened Audit

  /** The terminal status of a run. */
  datatype Status = Completed | Failed | Partial | Cancelled {
    /** The status as it appears in the JSON report. */
    function Name(): string {
      match this
      case Completed => "completed"
      case Failed => "failed"
      case Partial => "partial"
      case Cancelled => "cancelled"
    }
  }

  datatype ScanConfig = ScanConfig(maxPages: int, offset: int, limit: int)

  /** The report of one run. The scan time stamp is not modelled. */
  datatype ScanResult = ScanResult(
    baseURL: string,
    totalPages: int,
    pageResults: seq<PageResult>,
    urlsDiscovered: seq<string>,
    urlsVisited: seq<string>,
    scanConfig: ScanConfig,
    status: Status)

  /** The status classifier: cancellation wins, then an empty run fails, then
      any page error makes the run partial, otherwise it completed. */
  function Classify(cancelled: bool, pages: seq<PageResult>): (s: Status)
    ensures s == Cancelled <==> cancelled
    ensures s == Failed <==> !cancelled && pages == []
    ensures s == Partial <==>
      !cancelled && pages != [] && exists i | 0 <= i < |pages| :: pages[i].error != ""
    ensures s == Completed <==>
      !cancelled && pages != [] && forall i | 0 <= i < |pages| :: pages[i].error == ""
  {
    if cancelled then Cancelled
    else if pages == [] then Failed
    else if exists i | 0 <= i < |pages| :: pages[i].error != "" then Partial
    else Completed
  }

  /** Status names are distinct, so the JSON string determines the status. */
  lemma NamesDistinct(s: Status, t: Status)
    ensures s.Name() == t.Name() ==> s == t
  {
  }

  /** The end of crawlAndScan: the status reached by the loop (still
      "completed", or "cancelled") is refined by the page results, the error
      search scanning the pages in order and stopping at the first error. */
  method FinishStatus(status: Status, pages: seq<PageResult>) returns (s: Status)
    requires status == Completed || status == Cancelled
    ensures s == Classify(status == Cancelled, pages)
  {
    s := status;
    if s != Cancelled && |pages| == 0 {
      s := Failed;
    } else if s != Cancelled {
      var hasErrors := false;
      var i := 0;
      while i < |pages|
        invariant 0 <= i <= |pages|
        invariant !hasErrors
        invariant forall j | 0 <= j < i :: pages[j].error == ""
      {
        if pages[i].error != "" {
          hasErrors := true;
          break;
        }
        i := i + 1;
      }
      if hasErrors {
        s := Partial;
      }
    }
  }

  /** UrlsVisited is assembled from the page results, in order. */
  method VisitedUrls(pages: seq<PageResult>) returns (urls: seq<string>)
    ensures |urls| == |pages|
    ensures forall i | 0 <= i < |pages| :: urls[i] == pages[i].url
  {
    urls := [];
    for i := 0 to |pages|
      invariant |urls| == i
      invariant forall j | 0 <= j < i :: urls[j] == pages[j].url
    {
      urls := urls + [pages[i].url];
    }
  }
}

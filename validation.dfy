/** The decision handleScan makes on a decoded request before any scanner
    exists (main.go:442-487): field checks in order, the defaults, the ranges,
    then the presence of the service key. The request transport and the JSON
    decoding are not part of this model. */
module Validation {
  import opened Links
  import opened Report

  /** The decoded request; an absent numeric field decodes as 0. */
  datatype ScanRequest = ScanRequest(url: string, maxPages: int, offset: int, limit: int)

  /** The error body and HTTP status of a rejected request. */
  datatype ErrorResponse = ErrorResponse(error: string, code: int, message: string)

  /** Either the request is answered with an error, or a scan starts with the
      given key, base URL and configuration. */
  datatype Decision = Reject(response: ErrorResponse) | Start(apiKey: string, baseURL: string, config: ScanConfig)

  const BadRequest := 400
  const InternalServerError := 500
  const DefaultMaxPages := 50
  const DefaultLimit := 5
  const MaxMaxPages := 1000
  const MaxLimit := 100

  const MissingURL := ErrorResponse("Missing URL", BadRequest, "URL is required")
  const InvalidURL := ErrorResponse("Invalid URL", BadRequest, "URL must be valid")
  const InvalidMaxPages := ErrorResponse("Invalid max_pages", BadRequest, "max_pages must be between 1 and 1000")
  const InvalidLimit := ErrorResponse("Invalid limit", BadRequest, "limit must be between 1 and 100")
  const InvalidOffset := ErrorResponse("Invalid offset", BadRequest, "offset cannot be negative")
  const MissingKey := ErrorResponse("Configuration error", InternalServerError, "Google API key not configured")

  /** A zero field takes its default. */
  function Defaulted(value: int, default: int): int {
    if value == 0 then default else value
  }

  /** The request is acceptable: a URL that parses, and after the defaults
      max_pages in [1, 1000], limit in [1, 100] and a non-negative offset. */
  predicate RequestValid(lib: UrlLib, req: ScanRequest) {
    && req.url != "" && lib.parse(req.url).Some?
    && 1 <= Defaulted(req.maxPages, DefaultMaxPages) <= MaxMaxPages
    && 1 <= Defaulted(req.limit, DefaultLimit) <= MaxLimit
    && req.offset >= 0
  }

  /** The checks of handleScan, in its order; the first that fails decides
      the answer. */
  function HandleScan(lib: UrlLib, req: ScanRequest, apiKey: string): (d: Decision)
    ensures d.Start? <==> RequestValid(lib, req) && apiKey != ""
    ensures d.Start? ==>
      && d.apiKey == apiKey && d.baseURL == req.url
      && d.config == ScanConfig(Defaulted(req.maxPages, DefaultMaxPages), req.offset, Defaulted(req.limit, DefaultLimit))
      && 1 <= d.config.maxPages <= 1000 && 1 <= d.config.limit <= 100 && d.config.offset >= 0
    ensures d.Reject? ==> (d.response.code == BadRequest <==> !RequestValid(lib, req))
    ensures d.Reject? ==> (d.response.code == InternalServerError <==> RequestValid(lib, req) && apiKey == "")
  {
    if req.url == "" then Reject(MissingURL)
    else if lib.parse(req.url).None? then Reject(InvalidURL)
    else
      var maxPages := Defaulted(req.maxPages, DefaultMaxPages);
      var limit := Defaulted(req.limit, DefaultLimit);
      if maxPages < 1 || maxPages > MaxMaxPages then Reject(InvalidMaxPages)
      else if limit < 1 || limit > MaxLimit then Reject(InvalidLimit)
      else if req.offset < 0 then Reject(InvalidOffset)
      else if apiKey == "" then Reject(MissingKey)
      else Start(apiKey, req.url, ScanConfig(maxPages, req.offset, limit))
  }

  /** The checks run in order: each error is reported exactly when every
      earlier check passed and its own failed, whatever the later fields hold. */
  lemma CheckOrder(lib: UrlLib, req: ScanRequest, apiKey: string)
    ensures HandleScan(lib, req, apiKey) == Reject(MissingURL) <==> req.url == ""
    ensures HandleScan(lib, req, apiKey) == Reject(InvalidURL) <==>
      req.url != "" && lib.parse(req.url).None?
    ensures HandleScan(lib, req, apiKey) == Reject(InvalidMaxPages) <==>
      req.url != "" && lib.parse(req.url).Some? &&
      !(1 <= Defaulted(req.maxPages, DefaultMaxPages) <= MaxMaxPages)
    ensures HandleScan(lib, req, apiKey) == Reject(InvalidLimit) <==>
      req.url != "" && lib.parse(req.url).Some? &&
      1 <= Defaulted(req.maxPages, DefaultMaxPages) <= MaxMaxPages &&
      !(1 <= Defaulted(req.limit, DefaultLimit) <= MaxLimit)
    ensures HandleScan(lib, req, apiKey) == Reject(InvalidOffset) <==>
      req.url != "" && lib.parse(req.url).Some? &&
      1 <= Defaulted(req.maxPages, DefaultMaxPages) <= MaxMaxPages &&
      1 <= Defaulted(req.limit, DefaultLimit) <= MaxLimit && req.offset < 0
    ensures HandleScan(lib, req, apiKey) == Reject(MissingKey) <==>
      RequestValid(lib, req) && apiKey == ""
  {
  }

  /** An empty request body with a URL starts the documented default scan:
      50 pages of discovery, offset 0, 5 audited pages. */
  lemma DefaultScan(lib: UrlLib, url: string, apiKey: string)
    requires url != "" && lib.parse(url).Some? && apiKey != ""
    ensures HandleScan(lib, ScanRequest(url, 0, 0, 0), apiKey) == Start(apiKey, url, ScanConfig(50, 0, 5))
  {
  }
}

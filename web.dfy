/** The two small decisions both scrapers make before driving the browser:
    where to navigate, and which requests to let through. */
module Web {
  import opened JsText

  /** `path.startsWith('http') ? path : baseUrl + path`. The path always ends the
      result, and an absolute path is kept as it is. */
  function ResolveUrl(baseUrl: string, path: string): (r: string)
    ensures |path| <= |r| && r[|r| - |path|..] == path
    ensures StartsWith(path, "http") ==> r == path
    ensures !StartsWith(path, "http") ==> |r| == |baseUrl| + |path| && r[..|baseUrl|] == baseUrl
  {
    if StartsWith(path, "http") then path else baseUrl + path
  }

  /** With an absolute base URL, every resolved URL is absolute. */
  lemma ResolvedIsAbsolute(baseUrl: string, path: string)
    requires StartsWith(baseUrl, "http")
    ensures StartsWith(ResolveUrl(baseUrl, path), "http")
  {
    if !StartsWith(path, "http") {
      assert (baseUrl + path)[..4] == baseUrl[..4];
    }
  }

  /** Resolving twice against an absolute base URL is resolving once: the orchestrator
      resolves a category path and the scraper resolves the result again. */
  lemma ResolveUrlIdempotent(baseUrl: string, path: string)
    requires StartsWith(baseUrl, "http")
    ensures ResolveUrl(baseUrl, ResolveUrl(baseUrl, path)) == ResolveUrl(baseUrl, path)
  {
    ResolvedIsAbsolute(baseUrl, path);
  }

  /** The resource types the request handler aborts. */
  const BlockedResourceTypes: seq<string> := ["image", "stylesheet", "font", "media"]

  datatype RequestAction = Abort | Continue

  /** The `page.on('request', ...)` handler: `req.abort()` for a blocked type,
      `req.continue()` otherwise. */
  function FilterRequest(resourceType: string): (r: RequestAction)
    ensures r == Abort <==> resourceType in BlockedResourceTypes
  {
    if resourceType in BlockedResourceTypes then Abort else Continue
  }

  /** Exactly four types are blocked; documents, scripts and data requests always pass. */
  lemma FilterBlocksExactlyFour(resourceType: string)
    ensures FilterRequest(resourceType) == Abort <==>
              resourceType == "image" || resourceType == "stylesheet"
              || resourceType == "font" || resourceType == "media"
    ensures resourceType in ["document", "script", "xhr", "fetch", "websocket", "other"] ==>
              FilterRequest(resourceType) == Continue
  {
  }
}

/**
 * `MultiDomainMiddleware` (url_shortener/middleware.py): stamps every request with the
 * host it was addressed to, port removed, before handing it on.
 */
module Middleware {
  import opened Wrappers
  import opened Text

  /** The parts of a Django request the middleware and the create serializer use. */
  class HttpRequest {
    /** What `request.get_host()` returns, port included when the client sent one. */
    const host: string
    /** `request.short_url_domain`, absent until the middleware sets it. */
    var shortUrlDomain: Option<string>
    /** `request.original_host`, absent until the middleware sets it. */
    var originalHost: Option<string>

    constructor (host: string)
      ensures this.host == host && shortUrlDomain.None? && originalHost.None?
    {
      this.host := host;
      shortUrlDomain := None;
      originalHost := None;
    }
  }

  /** `host.split(':')[0]`: the longest prefix of the host with no ':' in it. */
  function StripPort(host: string): (r: string)
    ensures StartsWith(host, r)
    ensures ':' !in r
    ensures |r| < |host| ==> host[|r|] == ':'
    ensures ':' !in host ==> r == host
  {
    BeforeFirst(host, ':')
  }

  /** Stripping twice strips nothing more. */
  lemma StripPortIdempotent(host: string)
    ensures StripPort(StripPort(host)) == StripPort(host)
  {
  }

  /**
   * `MultiDomainMiddleware.__call__`: both request attributes get the port-less host, then the
   * rest of the chain (`getResponse`, which sees the two attributes) answers the stamped
   * request, and its response is returned as it is.
   */
  method MultiDomainMiddleware<R>(request: HttpRequest, getResponse: (Option<string>, Option<string>) -> R)
    returns (response: R)
    modifies request
    ensures request.shortUrlDomain == Some(StripPort(request.host))
    ensures request.originalHost == request.shortUrlDomain
    ensures response == getResponse(request.shortUrlDomain, request.originalHost)
  {
    var host := StripPort(request.host);
    request.shortUrlDomain := Some(host);
    request.originalHost := Some(host);
    response := getResponse(request.shortUrlDomain, request.originalHost);
  }
}

/** The HTTP server's own decisions: the CORS middleware, the cache of SFTP
    pools keyed by "host:port", and the fallback for unmatched paths when the
    console is served from the binary.  Routing and the handlers themselves are
    modelled in their own modules. */
module Server {
  import opened Text
  import Pool

  const AllowOriginHeader := "Access-Control-Allow-Origin"
  const AllowCredentialsHeader := "Access-Control-Allow-Credentials"
  const AllowHeadersHeader := "Access-Control-Allow-Headers"
  const AllowMethodsHeader := "Access-Control-Allow-Methods"

  const AllowedHeaders := "Content-Type, Content-Length, Accept-Encoding, X-CSRF-Token, Authorization, accept, origin, Cache-Control, X-Requested-With"
  const AllowedMethods := "POST, OPTIONS, GET, PUT, DELETE"

  /** The capacity every cached pool is created with. */
  const PoolCapacity: nat := 5

  /** An origin is allowed when no origins are configured, when "*" is
      configured, or when the origin itself is configured. */
  predicate OriginAllowed(allowOrigins: seq<string>, origin: string) {
    |allowOrigins| == 0 || "*" in allowOrigins || origin in allowOrigins
  }

  /** The middleware's scan of the configured origins. */
  method CorsAllow(allowOrigins: seq<string>, origin: string) returns (allow: bool)
    ensures allow <==> OriginAllowed(allowOrigins, origin)
  {
    allow := false;
    if |allowOrigins| == 0 {
      allow := true;
    } else {
      var i := 0;
      while i < |allowOrigins|
        invariant 0 <= i <= |allowOrigins|
        invariant !allow
        invariant forall k :: 0 <= k < i ==> allowOrigins[k] != "*" && allowOrigins[k] != origin
      {
        if allowOrigins[i] == "*" || allowOrigins[i] == origin {
          allow := true;
          break;
        }
        i := i + 1;
      }
    }
  }

  /** What the middleware does to one request: the response headers it sets and
      whether it answers the request itself (with 204) instead of passing it
      on to the route handler. */
  datatype CorsOutcome = CorsOutcome(headers: map<string, string>, answered: bool, status: int)

  method Cors(allowOrigins: seq<string>, origin: string, requestMethod: string) returns (r: CorsOutcome)
    ensures AllowOriginHeader in r.headers <==> OriginAllowed(allowOrigins, origin)
    ensures AllowOriginHeader in r.headers ==>
              r.headers[AllowOriginHeader] == (if origin != "" then origin else "*")
    ensures AllowCredentialsHeader in r.headers && r.headers[AllowCredentialsHeader] == "true"
    ensures AllowHeadersHeader in r.headers && r.headers[AllowHeadersHeader] == AllowedHeaders
    ensures AllowMethodsHeader in r.headers && r.headers[AllowMethodsHeader] == AllowedMethods
    ensures r.headers.Keys <= {AllowOriginHeader, AllowCredentialsHeader, AllowHeadersHeader, AllowMethodsHeader}
    ensures r.answered <==> requestMethod == "OPTIONS"
    ensures r.answered ==> r.status == 204
  {
    var allow := CorsAllow(allowOrigins, origin);
    var headers: map<string, string> := map[];
    if allow {
      if origin != "" {
        headers := headers[AllowOriginHeader := origin];
      } else {
        headers := headers[AllowOriginHeader := "*"];
      }
    }
    headers := headers[AllowCredentialsHeader := "true"];
    headers := headers[AllowHeadersHeader := AllowedHeaders];
    headers := headers[AllowMethodsHeader := AllowedMethods];
    if requestMethod == "OPTIONS" {
      return CorsOutcome(headers, true, 204);
    }
    return CorsOutcome(headers, false, 200);
  }

  /** A configured wildcard admits every origin, and an empty configuration
      admits every origin too; a non-empty list without "*" admits only its
      members, so an absent Origin header is then refused unless "" is listed. */
  lemma OriginAllowedCases(allowOrigins: seq<string>, origin: string)
    ensures "*" in allowOrigins ==> OriginAllowed(allowOrigins, origin)
    ensures |allowOrigins| > 0 && "*" !in allowOrigins ==>
              (OriginAllowed(allowOrigins, origin) <==> exists k :: 0 <= k < |allowOrigins| && allowOrigins[k] == origin)
  {
  }

  // ---------------------------------------------------------------------------
  // The pool cache.

  /** The cache key: host, a colon, and the port in decimal. */
  function PoolKey(host: string, port: int): (key: string)
    ensures |key| == |host| + 1 + |IntToString(port)|
    ensures key[..|host|] == host && key[|host|] == ':'
    ensures key[|host| + 1..] == IntToString(port)
  {
    host + ":" + IntToString(port)
  }

  /** Two servers share a pool exactly when they have the same host and port,
      for hosts without a colon (the configuration only admits IPv4 addresses). */
  lemma {:induction false} PoolKeyInjective(h1: string, p1: int, h2: string, p2: int)
    requires ':' !in h1 && ':' !in h2
    ensures PoolKey(h1, p1) == PoolKey(h2, p2) <==> h1 == h2 && p1 == p2
  {
    if PoolKey(h1, p1) == PoolKey(h2, p2) {
      var k := PoolKey(h1, p1);
      IntToStringInjective(p1, p2);
      IntToStringInjective(p2, p1);
      if |h1| != |h2| {
        assert false;
      }
      assert h1 == k[..|h1|] == h2;
      assert IntToString(p1) == k[|h1| + 1..] == IntToString(p2);
    }
  }

  class ApiServer {
    var pools: map<string, Pool.SftpPool>

    constructor ()
      ensures pools == map[]
    {
      pools := map[];
    }

    /** getPool: a cached pool is returned as it is; otherwise a new pool of
        capacity 5 is created (createOk says which of its pre-created
        connections succeed) and cached only when creation succeeds. */
    method GetPool(host: string, port: int, createOk: seq<bool>) returns (p: Pool.SftpPool?)
      modifies this
      ensures PoolKey(host, port) in old(pools) ==> p == old(pools)[PoolKey(host, port)] && pools == old(pools)
      ensures PoolKey(host, port) !in old(pools) ==>
                (p == null <==> exists k :: 0 <= k < Pool.Capacity(PoolCapacity) / 2 && !Pool.Succeeds(createOk, k))
      ensures PoolKey(host, port) !in old(pools) && p == null ==> pools == old(pools)
      ensures PoolKey(host, port) !in old(pools) && p != null ==>
                fresh(p) && p.Valid() && p.maxCapacity == PoolCapacity && |p.idle| == 2 &&
                pools == old(pools)[PoolKey(host, port) := p]
    {
      var key := PoolKey(host, port);
      if key in pools {
        return pools[key];
      }
      p := Pool.NewPool(PoolCapacity, createOk);
      if p == null {
        return null;
      }
      pools := pools[key := p];
    }
  }

  /** Two requests for the same server share one pool; a server on another port
      gets its own; a failed creation leaves nothing cached, so the next request
      tries again. */
  method PoolCacheScenario() returns (same: bool, distinct: bool, failedCached: bool, retried: bool)
    ensures same && distinct && !failedCached && retried
  {
    var s := new ApiServer();
    var a := s.GetPool("10.0.0.1", 22, [true, true]);
    var b := s.GetPool("10.0.0.1", 22, [false]);
    PoolKeyInjective("10.0.0.1", 22, "10.0.0.1", 2222);
    var c := s.GetPool("10.0.0.1", 2222, [true, true]);
    same := a != null && a == b;
    distinct := c != null && c != a;
    PoolKeyInjective("10.0.0.2", 22, "10.0.0.1", 22);
    PoolKeyInjective("10.0.0.2", 22, "10.0.0.1", 2222);
    var d := s.GetPool("10.0.0.2", 22, [true, false]);
    assert !Pool.Succeeds([true, false], 1);
    failedCached := PoolKey("10.0.0.2", 22) in s.pools;
    var e := s.GetPool("10.0.0.2", 22, [true, true]);
    retried := e != null;
    assert Pool.Succeeds([true, true], 0) && Pool.Succeeds([true, true], 1);
  }

  // ---------------------------------------------------------------------------
  // Unmatched paths.

  datatype Fallback = ApiNotFound | IndexPage

  /** The NoRoute handler: a path whose first four characters are "/api" gets a
      JSON 404, every other path the console's index page. */
  function NoRoute(path: string): (r: Fallback)
    ensures r == ApiNotFound <==> HasPrefix(path, "/api")
  {
    if |path| >= 4 && path[..4] == "/api" then ApiNotFound else IndexPage
  }

  /** The check is a plain prefix test: an unknown "/apidocs" page is treated as
      an API route, and "/ap" is not. */
  lemma NoRouteIsPlainPrefix()
    ensures NoRoute("/apidocs") == ApiNotFound
    ensures NoRoute("/api/v1/unknown") == ApiNotFound
    ensures NoRoute("/ap") == IndexPage && NoRoute("/index") == IndexPage
  {
    assert "/apidocs"[..4] == "/api";
    assert "/api/v1/unknown"[..4] == "/api";
    assert "/index"[..4] == "/ind";
  }
}

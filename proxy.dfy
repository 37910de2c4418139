/** `proxy(urlObj, reqInit)`: fetch the target, then either hand a GitHub-shaped
    redirect back to the client through this worker, or follow a foreign
    redirect on the server side, and finally expose the upstream response with
    permissive CORS headers and without the headers that would stop it from
    being embedded. */
module Proxy {
  import opened Strings
  import opened Patterns
  import opened Http

  /** The response headers `proxy` deletes. */
  const StrippedHeaders: set<string> := {
    "content-security-policy", "content-security-policy-report-only",
    "clear-site-data", "x-frame-options", "x-content-type-options"
  }

  /** The 500 response of the `catch` block: recognisable as such, with the
      error message readable after its fixed prefix. */
  function ErrorResponse(message: string): (r: Response)
    ensures r.status == 500 && r.body == Text("Proxy Error: " + message)
    ensures r.body.text[|"Proxy Error: "|..] == message
  {
    TextResponse(500, "Proxy Error: " + message)
  }

  /** What the runtime throws when `urlObj` is the `null` of an unparsable location. */
  const NullUrlMessage := "Cannot read properties of null (reading 'href')"

  /** What `new Response` throws for a status outside 200..599. */
  const StatusRangeMessage := "Failed to construct 'Response': The status provided is outside the range [200, 599]."

  /** The header set of a response returned to the client: both CORS headers
      set to `*`, the stripped headers removed. */
  function ExposeHeaders(h: HeaderMap): HeaderMap {
    h["access-control-expose-headers" := "*"]["access-control-allow-origin" := "*"]
      - {"content-security-policy"} - {"content-security-policy-report-only"}
      - {"clear-site-data"} - {"x-frame-options"} - {"x-content-type-options"}
  }

  /** What the returned header set holds, header by header. */
  lemma ExposeHeadersSpec(h: HeaderMap)
    ensures ExposeHeaders(h)["access-control-allow-origin"] == "*"
    ensures ExposeHeaders(h)["access-control-expose-headers"] == "*"
    ensures forall n :: n in StrippedHeaders ==> n !in ExposeHeaders(h)
    ensures forall n :: n !in StrippedHeaders && n != "access-control-allow-origin" && n != "access-control-expose-headers" ==>
      (n in ExposeHeaders(h) <==> n in h) && (n in h ==> ExposeHeaders(h)[n] == h[n])
  {
  }

  /** The `set` and `delete` calls of lines 182-190, on the header object itself. */
  method ExposeInPlace(hdrs: Headers)
    modifies hdrs
    ensures hdrs.entries == ExposeHeaders(old(hdrs.entries))
  {
    hdrs.Set("access-control-expose-headers", "*");
    hdrs.Set("access-control-allow-origin", "*");
    hdrs.Delete("content-security-policy");
    hdrs.Delete("content-security-policy-report-only");
    hdrs.Delete("clear-site-data");
    hdrs.Delete("x-frame-options");
    hdrs.Delete("x-content-type-options");
  }

  /** `new Response(res.body, {status, headers})`, which throws (and so ends in
      the `catch`) for a status outside 200..599. */
  function Finish(status: int, h: HeaderMap, body: Body): (r: Response)
    ensures 200 <= status <= 599 ==> r == Response(status, h, body)
    ensures !(200 <= status <= 599) ==> r == ErrorResponse(StatusRangeMessage)
    ensures 200 <= r.status <= 599
    ensures r.status == status <==> 200 <= status <= 599
    ensures r.status != status ==> IsProxyError(r)
  {
    if 200 <= status <= 599 then Response(status, h, body)
    else
      ErrorResponseExposed(StatusRangeMessage);
      ErrorResponse(StatusRangeMessage)
  }

  /** A redirect that stays with the client: non-empty and GitHub-shaped. */
  ghost predicate InFamily(location: string) {
    location != "" && IsGitHubUrl(location)
  }

  /** The rewritten `location` of an in-family redirect: this worker's origin,
      the route prefix, and the location without its lower-case scheme. */
  function Loopback(self: string, prefix: string, location: string): (r: string)
    ensures r == self + prefix + StripScheme(location)
    ensures StartsWith(r, self) && StartsWith(r, self + prefix)
    ensures r[|self + prefix|..] == StripScheme(location)
  {
    var rest := StripScheme(location);
    assert self + prefix + rest == self + (prefix + rest) == (self + prefix) + rest;
    StartsWithConcat(self, prefix + rest);
    StartsWithConcat(self + prefix, rest);
    self + prefix + rest
  }

  /** The `location` line 172 writes: `urlObj` there is the upstream target,
      so the redirect names the upstream's origin, not this worker's. */
  function LoopbackAsWritten(upstream: Url, prefix: string, location: string): (r: string)
    ensures StartsWith(r, upstream.origin)
  {
    var rest := prefix + StripScheme(location);
    assert upstream.origin + prefix + StripScheme(location) == upstream.origin + rest;
    StartsWithConcat(upstream.origin, rest);
    upstream.origin + prefix + StripScheme(location)
  }

  /** The as-written `location` starts with the upstream origin, so wherever
      the two origins differ, it does not lead back to this worker, while the
      corrected one always does. */
  lemma {:induction false} AsWrittenPointsUpstream(upstream: Url, self: string, prefix: string, location: string, i: nat)
    requires i < |self| && i < |upstream.origin| && self[i] != upstream.origin[i]
    ensures StartsWith(LoopbackAsWritten(upstream, prefix, location), upstream.origin)
    ensures !StartsWith(LoopbackAsWritten(upstream, prefix, location), self)
    ensures StartsWith(Loopback(self, prefix, location), self)
  {
    var rest := prefix + StripScheme(location);
    assert LoopbackAsWritten(upstream, prefix, location) == upstream.origin + rest;
    StartsWithConcat(upstream.origin, rest);
    StartsWithDiffers(upstream.origin + rest, upstream.origin, self, i);
    assert Loopback(self, prefix, location) == self + rest;
    StartsWithConcat(self, rest);
  }

  /** A redirect answered by github.com, proxied by a worker at
      `https://proxy.example`, is rewritten to point at github.com. */
  lemma AsWrittenLeavesWorker(href: string, location: string)
    ensures StartsWith(LoopbackAsWritten(Url(href, "https://github.com"), "/", location), "https://github.com")
    ensures !StartsWith(LoopbackAsWritten(Url(href, "https://github.com"), "/", location), "https://proxy.example")
  {
    AsWrittenPointsUpstream(Url(href, "https://github.com"), "https://proxy.example", "/", location, 8);
  }

  /** The header set after an in-family `location` is rewritten. */
  function Relocated(h: HeaderMap, self: string, prefix: string): HeaderMap {
    if "location" in h then h["location" := Loopback(self, prefix, h["location"])] else h
  }

  /** Relocating touches `location` and nothing else. */
  lemma RelocatedKeeps(h: HeaderMap, self: string, prefix: string)
    ensures forall n :: n != "location" ==>
      (n in Relocated(h, self, prefix) <==> n in h) && (n in h ==> Relocated(h, self, prefix)[n] == h[n])
  {
  }

  /** Where a chain of hops ends. `HopLimit` is reached only when the hop
      bound runs out before the chain of foreign redirects does. */
  datatype Outcome = Done(response: Response) | HopLimit

  /** The recursion of `proxy`, one fetch per level, with at most `hops`
      foreign redirects followed. */
  ghost function ProxySpec(fetch: Fetcher, parse: Parser, self: string, prefix: string,
                           target: Option<Url>, init: RequestInit, hops: nat): Outcome
    decreases hops
  {
    if target.None? then Done(ErrorResponse(NullUrlMessage))
    else
      match fetch(target.value.href, init)
      case NetworkError(m) => Done(ErrorResponse(m))
      case Fetched(status, h, body) =>
        if "location" in h && !InFamily(h["location"]) then
          if hops == 0 then HopLimit
          else ProxySpec(fetch, parse, self, prefix, parse(h["location"]), init.(redirect := Follow), hops - 1)
        else
          Done(Finish(status, ExposeHeaders(Relocated(h, self, prefix)), body))
  }

  /** `proxy`, with its recursion on foreign redirects turned into a loop over
      hops; `self` is the origin clients reach this worker at. */
  method Proxy(fetch: Fetcher, parse: Parser, self: string, prefix: string,
               target: Option<Url>, init: RequestInit, maxHops: nat) returns (out: Outcome)
    ensures out == ProxySpec(fetch, parse, self, prefix, target, init, maxHops)
  {
    var urlObj, reqInit, hops := target, init, maxHops;
    var finished := false;
    out := HopLimit;
    while !finished
      invariant finished ==> out == ProxySpec(fetch, parse, self, prefix, target, init, maxHops)
      invariant !finished ==>
        ProxySpec(fetch, parse, self, prefix, urlObj, reqInit, hops) == ProxySpec(fetch, parse, self, prefix, target, init, maxHops)
      decreases hops + (if finished then 0 else 1)
    {
      if urlObj.None? {
        out, finished := Done(ErrorResponse(NullUrlMessage)), true;
      } else {
        var res := fetch(urlObj.value.href, reqInit);
        if res.NetworkError? {
          out, finished := Done(ErrorResponse(res.message)), true;
        } else {
          var resHdrNew := new Headers(res.headers);
          var following := false;
          if resHdrNew.Has("location") {
            var location := resHdrNew.entries["location"];
            var inFamily := false;
            if location != "" {
              inFamily := CheckUrl(location);
            }
            if inFamily {
              resHdrNew.Set("location", Loopback(self, prefix, location));
            } else {
              following := true;
              if hops == 0 {
                out, finished := HopLimit, true;
              } else {
                assert ProxySpec(fetch, parse, self, prefix, urlObj, reqInit, hops)
                    == ProxySpec(fetch, parse, self, prefix, parse(location), reqInit.(redirect := Follow), hops - 1);
                urlObj, hops := parse(location), hops - 1;
              }
              reqInit := reqInit.(redirect := Follow);
            }
          }
          if !following {
            ExposeInPlace(resHdrNew);
            out, finished := Done(Finish(res.status, resHdrNew.entries, res.body)), true;
          }
        }
      }
    }
  }

  // ---------------------------------------------------------------------
  // What every response that leaves `proxy` looks like.

  /** A 500 response built by the `catch` block. */
  predicate IsProxyError(r: Response) {
    r.status == 500 && r.headers == TextHeaders && r.body.Text? && StartsWith(r.body.text, "Proxy Error: ")
  }

  /** The response is the `catch` block's 500, or it comes from upstream
      with the stripped headers gone and `access-control-allow-origin: *`. */
  predicate Exposed(r: Response) {
    || IsProxyError(r)
    || (&& (forall n :: n in StrippedHeaders ==> n !in r.headers)
        && "access-control-allow-origin" in r.headers
        && r.headers["access-control-allow-origin"] == "*")
  }

  lemma ErrorResponseExposed(message: string)
    ensures IsProxyError(ErrorResponse(message)) && Exposed(ErrorResponse(message))
  {
    StartsWithConcat("Proxy Error: ", message);
  }

  /** The last step of every hop that ends with an upstream response. */
  lemma FinishExposed(status: int, h: HeaderMap, body: Body)
    ensures Exposed(Finish(status, ExposeHeaders(h), body))
  {
    if 200 <= status <= 599 {
      ExposeHeadersSpec(h);
    } else {
      ErrorResponseExposed(StatusRangeMessage);
    }
  }

  /** A hop that does not follow a redirect ends with an exposed response. */
  lemma LastHopExposed(fetch: Fetcher, parse: Parser, self: string, prefix: string,
                       u: Url, init: RequestInit, hops: nat)
    requires fetch(u.href, init).Fetched? ==>
      !("location" in fetch(u.href, init).headers && !InFamily(fetch(u.href, init).headers["location"]))
    ensures ProxySpec(fetch, parse, self, prefix, Some(u), init, hops).Done?
    ensures Exposed(ProxySpec(fetch, parse, self, prefix, Some(u), init, hops).response)
  {
    var f := fetch(u.href, init);
    if f.NetworkError? {
      ErrorResponseExposed(f.message);
    } else {
      FinishExposed(f.status, Relocated(f.headers, self, prefix), f.body);
    }
  }

  /** However many hops it takes, every response `proxy` returns is exposed. */
  lemma {:induction false} ProxyExposes(fetch: Fetcher, parse: Parser, self: string, prefix: string,
                                        target: Option<Url>, init: RequestInit, hops: nat)
    ensures ProxySpec(fetch, parse, self, prefix, target, init, hops).Done? ==>
            Exposed(ProxySpec(fetch, parse, self, prefix, target, init, hops).response)
    decreases hops
  {
    if target.None? {
      ErrorResponseExposed(NullUrlMessage);
    } else {
      var f := fetch(target.value.href, init);
      if f.Fetched? && "location" in f.headers && !InFamily(f.headers["location"]) {
        if hops > 0 {
          ProxyExposes(fetch, parse, self, prefix, parse(f.headers["location"]), init.(redirect := Follow), hops - 1);
        }
      } else {
        LastHopExposed(fetch, parse, self, prefix, target.value, init, hops);
      }
    }
  }

  /** A response returned at the first hop keeps the upstream status and body,
      and every upstream header other than the CORS pair, the stripped ones
      and `location`. */
  lemma FirstHopResponse(fetch: Fetcher, parse: Parser, self: string, prefix: string,
                         u: Url, init: RequestInit, hops: nat)
    requires fetch(u.href, init).Fetched?
    requires 200 <= fetch(u.href, init).status <= 599
    requires "location" !in fetch(u.href, init).headers || InFamily(fetch(u.href, init).headers["location"])
    ensures ProxySpec(fetch, parse, self, prefix, Some(u), init, hops).Done?
    ensures var r := ProxySpec(fetch, parse, self, prefix, Some(u), init, hops).response;
            var up := fetch(u.href, init);
            && r.status == up.status && r.body == up.body
            && "access-control-allow-origin" in r.headers && r.headers["access-control-allow-origin"] == "*"
            && "access-control-expose-headers" in r.headers && r.headers["access-control-expose-headers"] == "*"
            && (forall n :: n in StrippedHeaders ==> n !in r.headers)
            && (forall n ::
                  (n !in StrippedHeaders && n != "access-control-allow-origin"
                   && n != "access-control-expose-headers" && n != "location") ==>
                  (n in r.headers <==> n in up.headers) && (n in up.headers ==> r.headers[n] == up.headers[n]))
  {
    var up := fetch(u.href, init);
    var rh := Relocated(up.headers, self, prefix);
    var r := Response(up.status, ExposeHeaders(rh), up.body);
    assert ProxySpec(fetch, parse, self, prefix, Some(u), init, hops) == Done(r);
    ExposeHeadersSpec(rh);
    RelocatedKeeps(up.headers, self, prefix);
  }

  /** An in-family redirect ends the chain at once: the client gets the
      upstream response with `location` pointing back through this worker,
      the remainder after the prefix is still GitHub-shaped, and no later
      answer of `fetch` matters. */
  lemma InFamilyStops(fetch: Fetcher, other: Fetcher, parse: Parser, self: string, prefix: string,
                      u: Url, init: RequestInit, hops: nat)
    requires fetch(u.href, init).Fetched?
    requires "location" in fetch(u.href, init).headers
    requires InFamily(fetch(u.href, init).headers["location"])
    requires other(u.href, init) == fetch(u.href, init)
    ensures var up := fetch(u.href, init);
            var loc := up.headers["location"];
            && ProxySpec(fetch, parse, self, prefix, Some(u), init, hops)
               == Done(Finish(up.status, ExposeHeaders(up.headers["location" := self + prefix + StripScheme(loc)]), up.body))
            && IsGitHubUrl(StripScheme(loc))
    ensures ProxySpec(other, parse, self, prefix, Some(u), init, hops)
            == ProxySpec(fetch, parse, self, prefix, Some(u), init, hops)
  {
    var loc := fetch(u.href, init).headers["location"];
    var p: Pattern :| Matches(p, loc);
    StripKeepsMatch(p, loc);
  }

  /** A foreign redirect is followed on the server with `redirect: 'follow'`;
      a location the parser rejects ends in the `catch` block's 500. */
  lemma ForeignFollowed(fetch: Fetcher, parse: Parser, self: string, prefix: string,
                        u: Url, init: RequestInit, hops: nat)
    requires fetch(u.href, init).Fetched?
    requires "location" in fetch(u.href, init).headers
    requires !InFamily(fetch(u.href, init).headers["location"])
    ensures var loc := fetch(u.href, init).headers["location"];
            && (hops > 0 ==> ProxySpec(fetch, parse, self, prefix, Some(u), init, hops)
                             == ProxySpec(fetch, parse, self, prefix, parse(loc), init.(redirect := Follow), hops - 1))
            && (hops > 0 && parse(loc).None? ==>
                  ProxySpec(fetch, parse, self, prefix, Some(u), init, hops) == Done(ErrorResponse(NullUrlMessage)))
  {
  }

  /** A failed `fetch` becomes a 500 carrying its message, never a retry. */
  lemma NetworkErrorIs500(fetch: Fetcher, parse: Parser, self: string, prefix: string,
                          u: Url, init: RequestInit, hops: nat)
    requires fetch(u.href, init).NetworkError?
    ensures ProxySpec(fetch, parse, self, prefix, Some(u), init, hops)
            == Done(ErrorResponse(fetch(u.href, init).message))
    ensures ProxySpec(fetch, parse, self, prefix, Some(u), init, hops).response.status == 500
  {
  }
}

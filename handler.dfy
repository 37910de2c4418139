/** `httpHandler(req, pathname)`: answer CORS preflights, rewrite the
    Accept-Language header, apply the whitelist, turn the target into an
    https URL, and hand the request to `proxy` with manual redirects. */
module Handler {
  import opened Strings
  import opened Patterns
  import opened Http
  import opened Proxy

  /** The parts of an incoming `Request` the handler reads. */
  datatype Request = Request(verb: string, headers: HeaderMap, body: Body)

  /** The headers of `PREFLIGHT_INIT`. */
  const PreflightHeaders: HeaderMap := map[
    "access-control-allow-origin" := "*",
    "access-control-allow-methods" := "GET,POST,PUT,PATCH,TRACE,DELETE,HEAD,OPTIONS",
    "access-control-max-age" := "1728000"
  ]

  /** `new Response(null, PREFLIGHT_INIT)` */
  const Preflight := Response(204, PreflightHeaders, NoBody)

  /** A CORS preflight: an OPTIONS request announcing the headers it will send. */
  predicate IsPreflight(req: Request) {
    req.verb == "OPTIONS" && "access-control-request-headers" in req.headers
  }

  /** The header set with the first `zh-CN` of Accept-Language turned into `zh-SG`. */
  function AcceptLanguage(h: HeaderMap): HeaderMap {
    if "accept-language" in h then h["accept-language" := ReplaceFirst(h["accept-language"], "zh-CN", "zh-SG")] else h
  }

  /** Only Accept-Language changes, and within it only the first `zh-CN`
      (one of equal length), so a value without it is kept as it is. */
  lemma AcceptLanguageSpec(h: HeaderMap)
    ensures AcceptLanguage(h).Keys == h.Keys
    ensures forall n :: n in h && n != "accept-language" ==> AcceptLanguage(h)[n] == h[n]
    ensures "accept-language" in h ==>
      |AcceptLanguage(h)["accept-language"]| == |h["accept-language"]|
    ensures "accept-language" in h && !Contains(h["accept-language"], "zh-CN") ==>
      AcceptLanguage(h)["accept-language"] == h["accept-language"]
    ensures "accept-language" in h && Contains(h["accept-language"], "zh-CN") ==>
      exists i: nat ::
        && OccursAt(h["accept-language"], "zh-CN", i)
        && (forall j: nat :: j < i ==> !OccursAt(h["accept-language"], "zh-CN", j))
        && AcceptLanguage(h)["accept-language"] == h["accept-language"][..i] + "zh-SG" + h["accept-language"][i + 5..]
  {
    if "accept-language" in h {
      ReplaceFirstSpec(h["accept-language"], "zh-CN", "zh-SG");
    }
  }

  /** The rewrite of a typical browser value. */
  lemma AcceptLanguageExample()
    ensures AcceptLanguage(map["accept-language" := "zh-CN,en;q=0.9"])["accept-language"] == "zh-SG,en;q=0.9"
  {
    assert OccursAt("zh-CN,en;q=0.9", "zh-CN", 0);
  }

  /** The whitelist admits `target` when it is empty or when `target`
      contains one of its entries. */
  predicate WhitelistPermits(whiteList: seq<string>, target: string) {
    |whiteList| == 0 || exists i :: 0 <= i < |whiteList| && Contains(target, whiteList[i])
  }

  /** The `flag` loop of lines 114-121. */
  method CheckWhitelist(whiteList: seq<string>, pathname: string) returns (flag: bool)
    ensures flag == WhitelistPermits(whiteList, pathname)
  {
    flag := |whiteList| == 0;
    var k := 0;
    while k < |whiteList|
      invariant 0 <= k <= |whiteList|
      invariant flag == (|whiteList| == 0 || exists i :: 0 <= i < k && Contains(pathname, whiteList[i]))
    {
      if Contains(pathname, whiteList[k]) {
        flag := true;
        break;
      }
      k := k + 1;
    }
  }

  /** An empty entry admits every target, since every string contains "". */
  lemma EmptyEntryPermitsAll(whiteList: seq<string>, target: string)
    requires "" in whiteList
    ensures WhitelistPermits(whiteList, target)
  {
    var i :| 0 <= i < |whiteList| && whiteList[i] == "";
    assert OccursAt(target, "", 0);
  }

  /** Adding entries to a non-empty whitelist never blocks a target it admitted. */
  lemma WhitelistGrows(whiteList: seq<string>, more: seq<string>, target: string)
    requires |whiteList| > 0 && WhitelistPermits(whiteList, target)
    ensures WhitelistPermits(whiteList + more, target)
  {
    var i :| 0 <= i < |whiteList| && Contains(target, whiteList[i]);
    assert (whiteList + more)[i] == whiteList[i];
  }

  /** What the handler does before `proxy`: answer the request itself, or
      forward it to a parsed target. */
  datatype Prepared = Respond(response: Response) | Forward(url: Url, init: RequestInit)

  /** Lines 97-145, as a value. */
  function Prepare(parse: Parser, whiteList: seq<string>, req: Request, pathname: string): Prepared {
    if IsPreflight(req) then Respond(Preflight)
    else if !WhitelistPermits(whiteList, pathname) then Respond(TextResponse(403, "blocked"))
    else match parse(NormalizeScheme(pathname))
      case None => Respond(TextResponse(400, "Bad Request: Invalid URL format"))
      case Some(u) => Forward(u, RequestInit(req.verb, AcceptLanguage(req.headers), Manual, req.body))
  }

  /** The four ways `Prepare` can end, each with its condition: a preflight is
      answered first, whatever the whitelist says; a target the whitelist
      refuses gets 403; an unparsable target 400; anything else is forwarded
      with the method and body of the request, its rewritten headers and
      manual redirects, to the https form of the target. */
  lemma PrepareCases(parse: Parser, whiteList: seq<string>, req: Request, pathname: string)
    ensures IsPreflight(req) ==> Prepare(parse, whiteList, req, pathname) == Respond(Preflight)
    ensures !IsPreflight(req) && !WhitelistPermits(whiteList, pathname) ==>
      Prepare(parse, whiteList, req, pathname).Respond? &&
      Prepare(parse, whiteList, req, pathname).response.status == 403
    ensures Prepare(parse, whiteList, req, pathname).Forward? <==>
      !IsPreflight(req) && WhitelistPermits(whiteList, pathname) && parse(NormalizeScheme(pathname)).Some?
    ensures Prepare(parse, whiteList, req, pathname).Forward? ==>
      var f := Prepare(parse, whiteList, req, pathname);
      && Some(f.url) == parse(NormalizeScheme(pathname))
      && f.init.redirect == Manual
      && f.init.verb == req.verb && f.init.body == req.body
      && f.init.headers == AcceptLanguage(req.headers)
    ensures Prepare(parse, whiteList, req, pathname).Respond? &&
            Prepare(parse, whiteList, req, pathname).response.status == 400 <==>
      !IsPreflight(req) && WhitelistPermits(whiteList, pathname) && parse(NormalizeScheme(pathname)).None?
  {
  }

  /** The response `httpHandler` resolves to, with `proxy` followed for at
      most `maxHops` foreign redirects. */
  ghost function HandleSpec(fetch: Fetcher, parse: Parser, self: string, prefix: string,
                            whiteList: seq<string>, req: Request, pathname: string, maxHops: nat): Outcome
  {
    match Prepare(parse, whiteList, req, pathname)
    case Respond(r) => Done(r)
    case Forward(u, init) => ProxySpec(fetch, parse, self, prefix, Some(u), init, maxHops)
  }

  /** `httpHandler`, step by step on a copy of the request headers. */
  method HttpHandler(fetch: Fetcher, parse: Parser, self: string, prefix: string,
                     whiteList: seq<string>, req: Request, pathname: string, maxHops: nat)
    returns (out: Outcome)
    ensures out == HandleSpec(fetch, parse, self, prefix, whiteList, req, pathname, maxHops)
  {
    if req.verb == "OPTIONS" && "access-control-request-headers" in req.headers {
      return Done(Preflight);
    }
    var reqHdrNew := new Headers(req.headers);
    if reqHdrNew.Has("accept-language") {
      var acceptLanguage := reqHdrNew.entries["accept-language"];
      reqHdrNew.Set("accept-language", ReplaceFirst(acceptLanguage, "zh-CN", "zh-SG"));
    }
    var flag := CheckWhitelist(whiteList, pathname);
    if !flag {
      return Done(TextResponse(403, "blocked"));
    }
    var urlToProxy := NormalizeScheme(pathname);
    var urlObj := parse(urlToProxy);
    if urlObj.None? {
      return Done(TextResponse(400, "Bad Request: Invalid URL format"));
    }
    var reqInit := RequestInit(req.verb, reqHdrNew.entries, Manual, req.body);
    out := Proxy.Proxy(fetch, parse, self, prefix, urlObj, reqInit, maxHops);
  }

  /** Every response the handler produces is either one it wrote itself
      (preflight, 403, 400) or one `proxy` exposed. */
  lemma HandlerResponses(fetch: Fetcher, parse: Parser, self: string, prefix: string,
                         whiteList: seq<string>, req: Request, pathname: string, maxHops: nat)
    ensures var o := HandleSpec(fetch, parse, self, prefix, whiteList, req, pathname, maxHops);
      o.Done? ==>
        || o.response == Preflight
        || o.response == TextResponse(403, "blocked")
        || o.response == TextResponse(400, "Bad Request: Invalid URL format")
        || Exposed(o.response)
  {
    var p := Prepare(parse, whiteList, req, pathname);
    if p.Forward? {
      ProxyExposes(fetch, parse, self, prefix, Some(p.url), p.init, maxHops);
    }
  }
}

/** `onRequest`: the entry point. It grows the crawler block list, answers
    blocked crawlers, the icon and `?q=` links itself, turns the path into a
    target URL and dispatches it on the six GitHub shapes, falling back to the
    configured alternatives when none matches. */
module Router {
  import opened Strings
  import opened Patterns
  import opened Http
  import opened UserAgents
  import opened Handler

  /** The deploy-time constants: `Config.jsdelivr` (as its truth value), `whiteList` and `PREFIX`. */
  datatype Settings = Settings(jsdelivr: bool, whiteList: seq<string>, prefix: string)

  /** The settings as the file ships them. */
  const Shipped := Settings(false, [], "/")

  /** `env.UA`, `env.URL302` and `env.URL`; the empty string stands for a
      value that is unset or empty, the two cases JavaScript treats as false. */
  datatype Env = Env(ua: string, url302: string, url: string)

  /** The parts of the incoming request `onRequest` reads: the request
      itself and, of its URL, the host, the pathname and the `q` parameter
      (empty when absent or empty). */
  datatype Incoming = Incoming(request: Request, host: string, pathname: string, q: string)

  /** What `onRequest` answers with. */
  datatype Decision =
    | Decoy                                 // the nginx welcome page, 200 text/html
    | Icon                                  // the favicon bytes, image/png, cached a day
    | Redirect(location: string, status: int)
    | Handle(target: string)                // `httpHandler(request, target)`
    | RawMirror(target: string)             // the jsDelivr redirect of the raw-host branch
    | FetchAlternate(url: string)           // `fetch(new Request(env.URL, request))`
    | Landing                               // the landing page, 200 text/html

  /** Lines 317-330 as intended: the route prefix is removed from the
      pathname whenever it is there, then an https scheme is added if none is. */
  function TargetFromPath(prefix: string, pathname: string): (r: string)
    ensures StartsWith(r, "http://") || StartsWith(r, "https://")
  {
    var t := if StartsWith(pathname, prefix) then pathname[|prefix|..] else pathname;
    NormalizeScheme(t)
  }

  /** Lines 317-330 as written: a prefix of `/` is never removed. */
  function TargetFromPathAsWritten(prefix: string, pathname: string): (r: string)
    ensures StartsWith(r, "http://") || StartsWith(r, "https://")
  {
    var t := if prefix != "/" && StartsWith(pathname, prefix) then pathname[|prefix|..] else pathname;
    NormalizeScheme(t)
  }

  /** The scheme and host of a `blob` link that the jsDelivr rewrite replaces. */
  const GitHubRoot := "https://github.com"

  /** jsDelivr's root for files of GitHub repositories. */
  const MirrorRoot := "https://cdn.jsdelivr.net/gh"

  /** The jsDelivr URL of a `blob` link: the first `/blob/` becomes `@`, then a
      leading `github.com` (exact case, optional lower-case scheme) becomes
      the jsDelivr GitHub root. */
  function JsDelivr(t: string): string {
    MirrorHost(ReplaceFirst(t, "/blob/", "@"))
  }

  /** The host replacement of `JsDelivr`. */
  function MirrorHost(s: string): string {
    if StartsWith(s, GitHubRoot) then MirrorRoot + s[18..]
    else if StartsWith(s, "http://github.com") then MirrorRoot + s[17..]
    else if StartsWith(s, "github.com") then MirrorRoot + s[10..]
    else s
  }

  /** No `/` of `https://github.com` is followed by a `b`. */
  lemma RootHasNoBlob(i: nat)
    requires i < |GitHubRoot|
    ensures GitHubRoot[i] != '/' || (i + 1 < |GitHubRoot| && GitHubRoot[i + 1] != 'b')
  {
    assert |GitHubRoot| == 18;
  }

  /** An occurrence of `/blob/` starts with `/b`. */
  lemma BlobHead(t: string, i: nat)
    requires OccursAt(t, "/blob/", i)
    ensures t[i] == '/' && t[i + 1] == 'b'
  {
    assert t[i..i + 6][0] == t[i] && t[i..i + 6][1] == t[i + 1];
  }

  /** `/blob/` cannot start inside the scheme and host `https://github.com`. */
  lemma NoBlobInHost(t: string, i: nat)
    requires StartsWith(t, GitHubRoot) && OccursAt(t, "/blob/", i)
    ensures |GitHubRoot| <= i
  {
    if i < |GitHubRoot| {
      BlobHead(t, i);
      RootHasNoBlob(i);
      StartsWithAt(t, GitHubRoot, i);
      if i + 1 < |GitHubRoot| {
        StartsWithAt(t, GitHubRoot, i + 1);
      }
    }
  }

  /** A `blob` link on `https://github.com` goes to jsDelivr's GitHub mirror:
      the owner and repository path are kept, and the first `/blob/`, which
      separates them from the branch, becomes `@`. */
  lemma JsDelivrBlob(t: string, i: nat)
    requires StartsWith(t, GitHubRoot)
    requires IndexOf(t, "/blob/") == Some(i)
    ensures |GitHubRoot| <= i
    ensures JsDelivr(t) == MirrorRoot + t[|GitHubRoot|..i] + "@" + t[i + 6..]
  {
    NoBlobInHost(t, i);
    var s := t[..i] + "@" + t[i + 6..];
    assert JsDelivr(t) == MirrorHost(s);
    SpliceAfter(t, i, |GitHubRoot|);
    StartsWithSlice(t, GitHubRoot);
    StartsWithSlice(s, GitHubRoot);
    OnGitHubRoot(s);
    Regroup(MirrorRoot, t[|GitHubRoot|..i], "@", t[i + 6..]);
  }

  /** Concatenation regrouped around a fixed head. */
  lemma Regroup(r: string, a: string, b: string, c: string)
    ensures r + (a + b + c) == r + a + b + c
  {
  }

  /** A string on `https://github.com` keeps its path under jsDelivr's root. */
  lemma OnGitHubRoot(s: string)
    requires StartsWith(s, GitHubRoot)
    ensures MirrorHost(s) == MirrorRoot + s[|GitHubRoot|..]
  {
  }

  /** Swapping `/blob/` at `i` for `@` keeps everything before `n <= i`. */
  lemma SpliceAfter(t: string, i: nat, n: nat)
    requires n <= i && i + 6 <= |t|
    ensures (t[..i] + "@" + t[i + 6..])[..n] == t[..n]
    ensures (t[..i] + "@" + t[i + 6..])[n..] == t[n..i] + "@" + t[i + 6..]
  {
  }

  /** Lines 355-377. */
  function Fallback(env: Env): (d: Decision)
    ensures !d.Handle? && !d.RawMirror?
    ensures env.url302 != "" ==> d == Redirect(env.url302, 302)
    ensures env.url302 == "" && env.url != "" ==>
      d == (if Lower(env.url) == "nginx" then Decoy else FetchAlternate(env.url))
    ensures env.url302 == "" && env.url == "" ==> d == Landing
  {
    if env.url302 != "" then Redirect(env.url302, 302)
    else if env.url != "" then
      if Lower(env.url) == "nginx" then Decoy else FetchAlternate(env.url)
    else Landing
  }

  /** The expressions of the first test of line 335, in its order. */
  const Proxied: seq<Pattern> := [Exp1, Exp5, Exp6, Exp3, Exp4]

  /** Lines 335-377: the expressions in the order the source tries them. */
  function Dispatch(s: Settings, env: Env, t: string): Decision {
    if AnyMatches(Proxied, t) then
      Handle(t)
    else if Matches(Exp2, t) then
      if s.jsdelivr then Redirect(JsDelivr(t), 302)
      else Handle(ReplaceFirst(t, "/blob/", "/raw/"))
    else if Matches(Exp4, t) then
      RawMirror(t)
    else Fallback(env)
  }

  /** Dispatch proxies exactly the GitHub-shaped targets (or sends a `blob`
      link to jsDelivr when that is on), passes a target of the first group on
      as it is even when it also looks like a `blob` link, turns a `blob`
      link's first `/blob/` into `/raw/`, never reaches the raw-host mirror
      branch, and hands everything else to the fallback. */
  lemma DispatchSpec(s: Settings, env: Env, t: string)
    ensures IsGitHubUrl(t) ==>
      || Dispatch(s, env, t).Handle?
      || (s.jsdelivr && Matches(Exp2, t) && Dispatch(s, env, t) == Redirect(JsDelivr(t), 302))
    ensures IsGitHubUrl(t) && !Matches(Exp2, t) ==> Dispatch(s, env, t) == Handle(t)
    ensures AnyMatches(Proxied, t) ==> Dispatch(s, env, t) == Handle(t)
    ensures !AnyMatches(Proxied, t) && Matches(Exp2, t) ==>
      Dispatch(s, env, t) == (if s.jsdelivr then Redirect(JsDelivr(t), 302) else Handle(ReplaceFirst(t, "/blob/", "/raw/")))
    ensures !IsGitHubUrl(t) ==> Dispatch(s, env, t) == Fallback(env)
    ensures !Dispatch(s, env, t).RawMirror?
  {
    if IsGitHubUrl(t) {
      var p: Pattern :| Matches(p, t);
      if p != Exp2 {
        assert Proxied[ProxiedIndex(p)] == p;
      }
    } else {
      assert !Matches(Exp2, t) && !Matches(Exp4, t);
      assert forall k :: 0 <= k < |Proxied| ==> !Matches(Proxied[k], t);
    }
  }

  /** Where an expression other than `exp2` sits in `Proxied`. */
  function ProxiedIndex(p: Pattern): (k: nat)
    requires p != Exp2
    ensures k < |Proxied| && Proxied[k] == p
  {
    match p
    case Exp1 => 0
    case Exp5 => 1
    case Exp6 => 2
    case Exp3 => 3
    case Exp4 => 4
  }

  /** Lines 264-350: block list test, icon, `?q=` link, then dispatch. */
  function Route(s: Settings, env: Env, blockedUA: seq<string>, req: Incoming): Decision {
    if Blocked(blockedUA, UserAgentOf(req.request.headers)) then Decoy
    else if Lower(req.pathname) == "/favicon.ico" then Icon
    else if req.q != "" then Redirect("https://" + req.host + s.prefix + req.q, 301)
    else Dispatch(s, env, TargetFromPath(s.prefix, req.pathname))
  }

  /** The order of the early answers: a blocked crawler gets the decoy
      whatever it asks for; the icon and `?q=` links come before dispatch;
      any other request is decided by dispatching its extracted target. */
  lemma RouteOrder(s: Settings, env: Env, blockedUA: seq<string>, req: Incoming)
    ensures Blocked(blockedUA, UserAgentOf(req.request.headers)) ==> Route(s, env, blockedUA, req) == Decoy
    ensures !Blocked(blockedUA, UserAgentOf(req.request.headers)) && Lower(req.pathname) == "/favicon.ico" ==>
      Route(s, env, blockedUA, req) == Icon
    ensures !Blocked(blockedUA, UserAgentOf(req.request.headers)) && Lower(req.pathname) != "/favicon.ico" && req.q != "" ==>
      Route(s, env, blockedUA, req) == Redirect("https://" + req.host + s.prefix + req.q, 301)
    ensures !Blocked(blockedUA, UserAgentOf(req.request.headers)) && Lower(req.pathname) != "/favicon.ico" && req.q == "" ==>
      Route(s, env, blockedUA, req) == Dispatch(s, env, TargetFromPath(s.prefix, req.pathname))
    ensures Route(s, env, blockedUA, req).Handle? ==>
      !Blocked(blockedUA, UserAgentOf(req.request.headers)) && req.q == "" &&
      IsGitHubUrl(TargetFromPath(s.prefix, req.pathname))
  {
    DispatchSpec(s, env, TargetFromPath(s.prefix, req.pathname));
  }

  /** The block list after a request: `env.UA`'s tokens appended when set. */
  function Grown(blockedUA: seq<string>, ua: string): (r: seq<string>)
    ensures |blockedUA| <= |r| && r[..|blockedUA|] == blockedUA
  {
    if ua != "" then blockedUA + Add(ua) else blockedUA
  }

  /** The module-level list `屏蔽爬虫UA` and the handler that appends to it. */
  class Worker {
    var blockedUA: seq<string>

    /** The seed entry is kept at the front forever. */
    predicate Valid()
      reads this
    {
      |blockedUA| > 0 && blockedUA[0] == "netcraft"
    }

    constructor ()
      ensures blockedUA == ["netcraft"] && Valid()
    {
      blockedUA := ["netcraft"];
    }

    /** `onRequest`, up to the decision it takes. */
    method OnRequest(s: Settings, env: Env, req: Incoming) returns (d: Decision)
      requires Valid()
      modifies this
      ensures Valid()
      ensures blockedUA == Grown(old(blockedUA), env.ua)
      ensures d == Route(s, env, blockedUA, req)
    {
      if env.ua != "" {
        blockedUA := blockedUA + Add(env.ua);
      }
      d := Route(s, env, blockedUA, req);
    }
  }

  /** A User-Agent containing the seed entry gets the decoy from a worker
      in its valid state, however its list grew. */
  lemma SeedAlwaysBlocks(w: Worker, s: Settings, env: Env, req: Incoming)
    requires w.Valid()
    requires Contains(UserAgentOf(req.request.headers), "netcraft")
    ensures Route(s, env, w.blockedUA, req) == Decoy
  {
  }

  // ---------------------------------------------------------------------
  // The loopback: a redirect `proxy` rewrites comes back to the same shape.

  /** The pathname of `self + prefix + rest` requested again yields `rest`
      with an https scheme: the prefix is removed and nothing else is. */
  lemma PrefixRemoved(prefix: string, rest: string)
    ensures TargetFromPath(prefix, prefix + rest) == NormalizeScheme(rest)
  {
    StartsWithConcat(prefix, rest);
    assert (prefix + rest)[|prefix|..] == rest;
  }

  /** A GitHub-shaped location with a lower-case scheme, or none, loses the
      scheme and leaves the part the expression demands after it. */
  lemma StrippedBody(p: Pattern, location: string)
    requires Matches(p, location)
    requires StartsWith(location, "http://") || StartsWith(location, "https://") || AfterScheme(p, location)
    ensures AfterScheme(p, StripScheme(location))
  {
    StripLeavesBody(p, location);
  }

  /** A body has no scheme to strip: it starts with `g` or `r`. */
  lemma BodyHasNoScheme(p: Pattern, rest: string)
    requires AfterScheme(p, rest)
    ensures StripScheme(rest) == rest
  {
    BodyStartsWithHost(p, rest);
    StartsWithAt(rest, "http://", 0);
    StartsWithAt(rest, "https://", 0);
  }

  /** What the client requests after a rewritten redirect is the location
      again, recognised by the same expression. */
  lemma LoopbackTarget(prefix: string, p: Pattern, location: string)
    requires Matches(p, location)
    requires StartsWith(location, "http://") || StartsWith(location, "https://") || AfterScheme(p, location)
    ensures Matches(p, TargetFromPath(prefix, prefix + StripScheme(location)))
  {
    StrippedBody(p, location);
    PrefixRemoved(prefix, StripScheme(location));
    NormalizeBody(p, StripScheme(location));
  }

  /** The decisions of the first two dispatch branches: proxy, or the
      jsDelivr redirect of a `blob` link when that is on. */
  predicate ServedFromGitHub(s: Settings, t: string, d: Decision) {
    d.Handle? || (s.jsdelivr && d == Redirect(JsDelivr(t), 302))
  }

  /** A GitHub-shaped target is served by the first dispatch branches. */
  lemma GitHubNotFallback(s: Settings, env: Env, p: Pattern, t: string)
    requires Matches(p, t)
    ensures ServedFromGitHub(s, t, Dispatch(s, env, t))
  {
    DispatchSpec(s, env, t);
  }

  /** A GitHub-shaped location, rewritten by `proxy` and requested by the
      client, is recognised by the same expression, and so is proxied again
      (or sent to jsDelivr) by the first dispatch branches. */
  lemma LoopbackRoundTrip(s: Settings, env: Env, p: Pattern, location: string)
    requires Matches(p, location)
    requires StartsWith(location, "http://") || StartsWith(location, "https://") || AfterScheme(p, location)
    ensures Matches(p, TargetFromPath(s.prefix, s.prefix + StripScheme(location)))
    ensures var t := TargetFromPath(s.prefix, s.prefix + StripScheme(location));
      ServedFromGitHub(s, t, Dispatch(s, env, t))
  {
    LoopbackTarget(s.prefix, p, location);
    GitHubNotFallback(s, env, p, TargetFromPath(s.prefix, s.prefix + StripScheme(location)));
  }

  /** The path part of an in-family location is stable under a second
      rewrite: its scheme, once removed, is not found again; a location
      whose scheme is not lower-case keeps it both times. */
  lemma LoopbackStable(p: Pattern, location: string)
    requires Matches(p, location)
    ensures StripScheme(StripScheme(location)) == StripScheme(location)
  {
    if StartsWith(location, "http://") || StartsWith(location, "https://") {
      StrippedBody(p, location);
      BodyHasNoScheme(p, StripScheme(location));
    }
  }

  // ---------------------------------------------------------------------
  // The prefix `/` is never removed.

  /** `https://` followed by a `/` is not the start of any body. */
  lemma SlashAfterScheme(pathname: string)
    requires |pathname| > 0 && pathname[0] == '/'
    ensures var t := "https://" + pathname;
      && t[0] == 'h' && t[7] == '/' && t[8..] == pathname
      && !StartsWith(pathname, "http://") && !StartsWith(pathname, "https://")
  {
    StartsWithAt(pathname, "http://", 0);
    StartsWithAt(pathname, "https://", 0);
  }

  /** With the shipped prefix `/`, the target keeps the pathname's leading
      slash, `https:///github.com/...`, which no expression accepts: every
      request falls back. */
  lemma {:induction false} AsWrittenNeverMatches(env: Env, s: Settings, pathname: string)
    requires s.prefix == "/"
    requires |pathname| > 0 && pathname[0] == '/'
    ensures TargetFromPathAsWritten(s.prefix, pathname) == "https://" + pathname
    ensures !IsGitHubUrl(TargetFromPathAsWritten(s.prefix, pathname))
    ensures Dispatch(s, env, TargetFromPathAsWritten(s.prefix, pathname)) == Fallback(env)
  {
    SlashAfterScheme(pathname);
    var t := "https://" + pathname;
    assert TargetFromPathAsWritten(s.prefix, pathname) == t;
    forall p: Pattern
      ensures !Matches(p, t)
    {
      BodyStartsWithHost(p, t);
      BodyStartsWithHost(p, t[7..]);
      BodyStartsWithHost(p, t[8..]);
    }
    DispatchSpec(s, env, t);
  }

  /** The corrected extraction with prefix `/` passes a GitHub path on to the first dispatch branches. */
  lemma CorrectedMatches(env: Env, s: Settings, p: Pattern, rest: string)
    requires s.prefix == "/"
    requires AfterScheme(p, rest)
    ensures Matches(p, TargetFromPath(s.prefix, "/" + rest))
    ensures var t := TargetFromPath(s.prefix, "/" + rest);
      ServedFromGitHub(s, t, Dispatch(s, env, t))
  {
    PrefixRemoved("/", rest);
    NormalizeBody(p, rest);
    GitHubNotFallback(s, env, p, TargetFromPath(s.prefix, "/" + rest));
  }

  // ---------------------------------------------------------------------
  // End to end, with the corrected extraction.

  /** With prefix `/`, a request for `/` followed by a GitHub path, from a
      User-Agent not on the list and without `q`, is proxied (or sent to
      jsDelivr): it is not taken for the icon, and dispatch serves it. */
  lemma RouteServesGitHub(s: Settings, env: Env, blockedUA: seq<string>, req: Incoming, p: Pattern, t: string)
    requires s.prefix == "/"
    requires !Blocked(blockedUA, UserAgentOf(req.request.headers)) && req.q == ""
    requires req.pathname == "/" + t && AfterScheme(p, t)
    ensures var d := Route(s, env, blockedUA, req);
      ServedFromGitHub(s, TargetFromPath(s.prefix, req.pathname), d)
  {
    BodyStartsWithHost(p, t);
    NotIcon(t);
    RouteOrder(s, env, blockedUA, req);
    CorrectedMatches(env, s, p, t);
  }

  /** A path whose second character is `g` or `r` in any case is not the icon. */
  lemma NotIcon(t: string)
    requires |t| > 0 && (LowerChar(t[0]) == 'g' || LowerChar(t[0]) == 'r')
    ensures Lower("/" + t) != "/favicon.ico"
  {
    assert Lower("/" + t)[1] == LowerChar(t[0]);
    assert "/favicon.ico"[1] == 'f';
  }

  /** With nothing configured, a request past the early answers whose target
      no expression accepts gets the landing page. */
  lemma RouteLanding(s: Settings, blockedUA: seq<string>, req: Incoming)
    requires !Blocked(blockedUA, UserAgentOf(req.request.headers))
    requires Lower(req.pathname) != "/favicon.ico" && req.q == ""
    requires !IsGitHubUrl(TargetFromPath(s.prefix, req.pathname))
    ensures Route(s, Env("", "", ""), blockedUA, req) == Landing
  {
    RouteOrder(s, Env("", "", ""), blockedUA, req);
    DispatchSpec(s, Env("", "", ""), TargetFromPath(s.prefix, req.pathname));
  }
}

# A verified model of the GitHub proxy worker

`_worker.js` is a Pages function that puts itself in front of GitHub. A
client asks it for a path such as
`/github.com/owner/repo/releases/download/v1/app.zip`. The worker then does
the following:

- It recognises the path as one of six GitHub URL shapes (`exp1`..`exp6`).
- It fetches the file from GitHub with `redirect: 'manual'`.
- It gives the response back with permissive CORS headers and without the
  headers that stop a page from embedding it.
- A redirect to another GitHub-shaped URL is rewritten so the client comes
  back through the worker. Any other redirect is followed on the server.

That is what the code is written to do. Two lines of the shipped file defeat
it (see Findings). With the shipped `PREFIX` of `/`, the prefix is never
removed from the pathname, so no path reaches the GitHub branches and every
request falls back. And a rewritten redirect names the upstream origin, not
the worker's own, so a client that does reach `proxy` is sent straight back
to GitHub. The model states both as written, and builds the rest of the
worker on the corrected lines.

Around that core, the worker also:

- answers CORS preflights and rewrites `zh-CN` to `zh-SG` in Accept-Language;
- applies a substring whitelist;
- serves a decoy nginx page to crawlers in a User-Agent block list, which it
  extends from the `UA` environment variable;
- turns `?q=<url>` links into path links with a 301;
- serves its favicon;
- falls back to a configured redirect, a decoy or alternate origin, or a
  landing page when nothing matches.

The model is split into seven modules:

- `Strings` (strings.dfy). ASCII lower-casing, prefix tests,
  `includes`/`indexOf`, and the first-occurrence `replace` that a string
  pattern performs.
- `Patterns` (patterns.dfy). The six regular expressions, written out as
  predicates with the `i` flag's ASCII folding and `.`'s line-terminator
  exclusion. Also `checkUrl`, and the two scheme edits `^https?:\/\/`: adding
  `https://` and stripping the scheme.
- `Http` (http.dfy). Header maps, bodies, responses, request initialisers, and
  a `Headers` class whose `set`/`delete` update the object in place. The
  runtime's `fetch` and URL parser are function-typed parameters.
- `Proxy` (proxy.dfy). `proxy`. The ghost function `ProxySpec` mirrors its
  recursion. The method `Proxy` runs it as a loop over hops.
- `Handler` (handler.dfy). `httpHandler`, as a pure `Prepare` step and the
  imperative `HttpHandler` method.
- `UserAgents` (ua.dfy). The `ADD` tokenizer and the block-list test.
- `Router` (router.dfy). `onRequest`, as the pure decision `Route`. The class
  `Worker` holds the module-level block list, which every request may extend.

Three settings are parameters, held in `Settings`: `Config.jsdelivr`,
`whiteList` and `PREFIX`. The shipped values are `Router.Shipped`. The worker's
own origin is the parameter `self`. `env.UA`, `env.URL302` and `env.URL` are
the `Env` datatype, where an empty string means unset. The redirect loop of
`proxy` takes a hop bound `maxHops`, which the source does not have (see
below).

Where the written code and its documentation disagree, the model follows the
code, except on the two lines of Findings:

- Preflight and whitelist checks happen inside `httpHandler`. They therefore
  come after the crawler check, the icon and the `?q=` redirect, and only for
  requests that are dispatched.
- The block list is a module-level array that is appended to on every request
  where `UA` is set. It is not rebuilt per request.
- The mirror redirect goes to `https://cdn.jsdelivr.net/gh`.
- The two lines listed under Findings defeat the code's own evident intent.
  For each, the model has an as-written member with a lemma showing the
  failure, and a corrected member. `Router.Route`, `Router.Worker.OnRequest`,
  `Proxy.ProxySpec`, `Proxy.Proxy` and `Handler.HttpHandler` use the corrected
  ones (see Left out).

## Model

| member | source | states |
|---|---|---|
| Strings.ReplaceFirstSpec | _worker.js:108 | `replace` with a string pattern leaves a string without the pattern unchanged, and otherwise swaps exactly the earliest occurrence |
| Strings.IndexOf | _worker.js:108 | the index found is an occurrence, no earlier index is one, and none is found exactly when the pattern does not occur |
| Patterns.CheckUrl | _worker.js:77-84 | `checkUrl` returns true exactly when one of the six expressions matches from the start of the string |
| Patterns.OrderIrrelevant | _worker.js:77-84 | trying the expressions in any order that covers all six gives the same answer as `checkUrl` |
| Patterns.BodyStartsWithHost | _worker.js:42-47 | past the optional scheme, every expression demands a host that starts with `g` or `r` in some letter case |
| Patterns.NormalizeScheme | _worker.js:127-130 | the result starts with `http://` or `https://`; a string that already does is kept; any other string gets `https://` in front |
| Patterns.NormalizeIdempotent | _worker.js:328-330 | adding the scheme twice is the same as adding it once |
| Patterns.StripScheme | _worker.js:172 | `https://` is removed when present, else `http://`, else nothing, and the input is the removed scheme followed by the result |
| Patterns.StripLeavesBody | _worker.js:172 | behind a lower-case scheme, a match can only come through the scheme group, so stripping the scheme leaves what the expression demands after it |
| Patterns.StripKeepsMatch | _worker.js:162-172 | stripping the scheme of a GitHub-shaped URL keeps it matched by the same expression |
| Patterns.NormalizeBody | _worker.js:328-330 | a scheme-less GitHub path gets `https://` in front and is still matched by the same expression |
| Patterns.Exp1Accepts | _worker.js:42 | `exp1` accepts `github.com/<owner>/<repo>/releases/...` and `.../archive/...` for any non-empty owner and repository without line terminators, such as `github.com/a/b/archive/master.zip` |
| Patterns.Exp2Accepts | _worker.js:43 | `exp2` accepts `github.com/<owner>/<repo>/blob/...` and `.../raw/...`, such as `github.com/a/b/blob/main/f.go` |
| Patterns.Exp3Accepts | _worker.js:44 | `exp3` accepts `github.com/<owner>/<repo>/info...` and `.../git-...`, such as `github.com/a/b/info/refs` |
| Patterns.Exp4Accepts | _worker.js:45 | `exp4` accepts `raw.githubusercontent.com/<owner>/<repo>/<branch>/<file>` |
| Patterns.Exp5Accepts | _worker.js:46 | `exp5` accepts `gist.githubusercontent.com/<user>/<id>/<file>` |
| Patterns.Exp6Accepts | _worker.js:47 | `exp6` accepts `github.com/<owner>/<repo>/tags...` |
| Http.Headers.constructor | _worker.js:103 | `new Headers(init)` holds a copy of `init` |
| Http.Headers.Set | _worker.js:109 | `set` replaces the value of one name and leaves every other entry |
| Http.Headers.Delete | _worker.js:186 | `delete` removes one name and leaves every other entry |
| Http.TextResponseHeaders | _worker.js:123 | a response written from a string carries only the runtime's content type, so the handler's own 403 and 400 have no CORS header, unlike the exposed upstream responses of `proxy`, whose own 500 has none either; the body is the text given |
| Proxy.ErrorResponse | _worker.js:196-199 | a failure in `proxy` becomes a 500 whose body gives back the error message intact after the fixed `Proxy Error: ` prefix |
| Proxy.ExposeHeadersSpec | _worker.js:182-190 | both CORS headers are `*`; the five named security headers are absent; every other upstream header is kept with its value |
| Proxy.ExposeInPlace | _worker.js:182-190 | the two `set` and five `delete` calls turn the header object into the exposed header set |
| Proxy.Finish | _worker.js:192-199 | the status returned is always in 200..599; it equals the upstream status exactly when that is in range, and then headers and body pass through; otherwise `new Response` throws and the result is recognisably the `catch` block's 500 |
| Proxy.Loopback | _worker.js:166-172 | the rewritten location leads back to this worker: it starts with the worker's own origin and the prefix (the as-written one does not, see `AsWrittenPointsUpstream`), and what follows them is the location without its scheme, which `LoopbackRoundTrip` shows is extracted again |
| Proxy.RelocatedKeeps | _worker.js:168-172 | rewriting the location changes no other response header |
| Proxy.LoopbackAsWritten | _worker.js:172 | the location as written starts with the origin of the upstream target |
| Proxy.AsWrittenPointsUpstream | _worker.js:172 | the location as written starts with the upstream origin, so it does not lead back to a worker whose origin differs; the corrected one does |
| Proxy.AsWrittenLeavesWorker | _worker.js:172 | a redirect answered by github.com is sent back to github.com, not to a worker at another origin |
| Proxy.Proxy | _worker.js:153-200 | the loop over hops returns what the recursive definition returns: a null URL or a failed fetch gives 500, a foreign redirect is refetched with `redirect: 'follow'`, anything else is exposed |
| Proxy.ErrorResponseExposed | _worker.js:196-199 | the 500 response is recognisable as the `catch` block's |
| Proxy.FinishExposed | _worker.js:182-195 | a final hop yields either the 500 of a rejected status or a response with the stripped headers gone and `access-control-allow-origin: *` |
| Proxy.LastHopExposed | _worker.js:157-199 | a hop that follows no redirect ends in an exposed response |
| Proxy.ProxyExposes | _worker.js:153-200 | however many redirects are followed, every response `proxy` returns lacks the five headers and allows any origin, or is its 500 |
| Proxy.FirstHopResponse | _worker.js:182-195 | a response returned at once keeps the upstream status, body and every header other than the CORS pair, the stripped headers and `location` |
| Proxy.InFamilyStops | _worker.js:162-172 | a GitHub-shaped location ends the chain with the location rewritten; the remainder is still GitHub-shaped; no further fetch is made |
| Proxy.ForeignFollowed | _worker.js:173-179 | a foreign or empty location is refetched with `redirect: 'follow'`; a location the parser rejects ends in 500 |
| Proxy.NetworkErrorIs500 | _worker.js:196-199 | a failed fetch becomes a 500 carrying its message and is never retried |
| Handler.AcceptLanguageSpec | _worker.js:103-110 | only Accept-Language changes; in it only the first `zh-CN` becomes `zh-SG`; its length is kept; a value without `zh-CN` is kept |
| Handler.AcceptLanguageExample | _worker.js:103-110 | `zh-CN,en;q=0.9` becomes `zh-SG,en;q=0.9` |
| Handler.CheckWhitelist | _worker.js:114-121 | the flag loop admits a target exactly when the whitelist is empty or the target contains one of its entries |
| Handler.EmptyEntryPermitsAll | _worker.js:116-117 | an empty whitelist entry admits every target, because every string includes the empty string |
| Handler.WhitelistGrows | _worker.js:114-124 | adding entries to a non-empty whitelist never blocks a target it admitted |
| Handler.PrepareCases | _worker.js:97-145 | a preflight is answered with 204 whatever the whitelist says; a refused target gets 403; an unparsable one 400; anything else is forwarded to the https form of the target with the request's method and body, its rewritten headers and manual redirects |
| Handler.HttpHandler | _worker.js:91-146 | the step-by-step handler resolves to the response the specification gives |
| Handler.HandlerResponses | _worker.js:91-146 | every response of the handler is the preflight, the 403, the 400, or an exposed response of `proxy` |
| UserAgents.Split | _worker.js:239 | `split(',')` always yields at least one piece |
| UserAgents.ReplaceSepsNoSeps | _worker.js:236 | replacing separator runs by commas leaves no separator |
| UserAgents.CollapseCommas | _worker.js:236 | collapsing comma runs leaves no two commas side by side |
| UserAgents.TrimCommasSpec | _worker.js:237-238 | dropping one comma at each end leaves no comma at either end and keeps every other character |
| UserAgents.SplitPieces | _worker.js:239 | no piece of the split holds a comma, and the pieces laid end to end are the string without its commas |
| UserAgents.SplitNonEmpty | _worker.js:239 | for a non-empty string with no double comma and no comma at either end, no piece is empty |
| UserAgents.AddSpec | _worker.js:235-241 | `ADD` yields tokens with no separator or comma that together spell exactly the input's other characters; `[""]` when there are none, and otherwise no empty token |
| UserAgents.WordsReplaceRuns | _worker.js:236 | turning each run of separators, or of commas, into one comma moves no boundary between the words of the input |
| UserAgents.WordsTrimCommas | _worker.js:237-238 | dropping a comma at either end moves no word boundary |
| UserAgents.SplitIsWords | _worker.js:239 | splitting the cleaned string at commas gives exactly its maximal runs of characters that are neither separators nor commas |
| UserAgents.AddWords | _worker.js:235-241 | `ADD` cuts the input exactly at runs of whitespace, quotes, `\|` and commas: its tokens are the input's maximal runs without them, in order, or `[""]` when there is none |
| UserAgents.AddTwoNames | _worker.js:235-241 | two names with a delimiter between them, such as `bot spider`, become two separate tokens |
| UserAgents.UserAgentOf | _worker.js:267-268 | the User-Agent tested is `"null"` when the header is missing or empty, and the ASCII-lower-cased header otherwise; it is never empty; it holds no upper-case ASCII letter, so lower-case list entries match whatever case the client sent |
| UserAgents.BlockedGrows | _worker.js:264-270 | a User-Agent blocked by a list stays blocked once the list grows |
| UserAgents.EmptyTokenBlocksAll | _worker.js:269 | an empty token in the list blocks every User-Agent |
| UserAgents.SeparatorsOnlyBlocksAll | _worker.js:264-270 | a `UA` value made only of separators makes every request a blocked crawler |
| Router.TargetFromPath | _worker.js:317-330 | the target always starts with a lower-case http scheme |
| Router.TargetFromPathAsWritten | _worker.js:317-330 | the target as written always starts with a lower-case http scheme |
| Router.Fallback | _worker.js:355-377 | the fallback never proxies; `URL302` wins with a 302; otherwise `URL` gives the nginx decoy when it is `nginx` in any letter case and a fetch of that URL when it is anything else; with neither value set, the landing page is served |
| Router.DispatchSpec | _worker.js:335-377 | GitHub-shaped targets are proxied, or sent to jsDelivr for a `blob` link when that is on; a target matched by the first group is proxied unchanged, even when it also looks like a `blob` link; a `blob` link matched by nothing else goes to jsDelivr when that is on and is otherwise proxied with its first `/blob/` turned into `/raw/`; the raw-host mirror branch is never reached; every other target falls back |
| Router.NoBlobInHost | _worker.js:339 | no occurrence of `/blob/` starts inside the scheme and host `https://github.com` |
| Router.JsDelivrBlob | _worker.js:338-341 | a `blob` link on `https://github.com` whose first `/blob/` is at `i` goes to `https://cdn.jsdelivr.net/gh` followed by the owner and repository path, `@`, and the rest after `/blob/`; so `https://github.com/a/b/blob/main/f.go` goes to `https://cdn.jsdelivr.net/gh/a/b@main/f.go` |
| Router.GitHubNotFallback | _worker.js:335-346 | a target matched by any expression is served by the first two dispatch branches |
| Router.RouteOrder | _worker.js:264-350 | a blocked crawler gets the decoy whatever it asks; otherwise `/favicon.ico` in any letter case gets the icon; otherwise a `?q=` link gets a 301 to this host's prefixed path; any other request is decided by dispatching the target extracted from its pathname; a proxied request passed the block list, had no `q`, and has a GitHub-shaped target |
| Router.NotIcon | _worker.js:279 | a pathname whose first segment starts with `g` or `r` in any case is not the icon request |
| Router.RouteServesGitHub | _worker.js:264-346 | with prefix `/`, a request for `/` and a GitHub path, from a User-Agent not on the list and without `q`, is proxied or sent to jsDelivr |
| Router.RouteLanding | _worker.js:317-377 | with nothing configured, a request past the early answers whose target matches no expression gets the landing page |
| Router.Grown | _worker.js:264-266 | the block list after a request starts with the list before it |
| Router.Worker.constructor | _worker.js:11 | the block list starts as `['netcraft']` |
| Router.Worker.OnRequest | _worker.js:255-350 | the block list grows by the tokens of `UA` when set, the seed stays first, and the request is answered by the routing decision on the grown list |
| Router.SeedAlwaysBlocks | _worker.js:264-270 | a worker in the state its invariant keeps gives a User-Agent containing `netcraft` the decoy, however its list has grown |
| Router.PrefixRemoved | _worker.js:317-330 | a prefixed pathname loses exactly the prefix and gains the https scheme if it had none |
| Router.LoopbackTarget | _worker.js:162-172 | what the client requests after a rewritten redirect is recognised by the same expression as the original location |
| Router.LoopbackRoundTrip | _worker.js:162-172 | a rewritten GitHub redirect, requested again, is proxied again (or sent to jsDelivr), not handed to the fallback |
| Router.LoopbackStable | _worker.js:172 | for every GitHub-shaped location, rewriting an already rewritten one finds no scheme to strip, so the canonical path is stable; a scheme in another letter case is kept both times |
| Router.AsWrittenNeverMatches | _worker.js:317-330 | with prefix `/`, the target as written is `https://` followed by the pathname with its slash, which no expression accepts, so every request falls back |
| Router.CorrectedMatches | _worker.js:317-330 | with prefix `/`, the corrected extraction hands a GitHub path to the first dispatch branches |

## Left out

- The bodies of the decoy nginx page, the landing page and the favicon are not modelled. They are the decisions `Decoy`, `Landing` and `Icon`. `fetch(new Request(env.URL, request))` is the decision `FetchAlternate`, and its result is not modelled.
- `Response.redirect` throws for a URL it cannot parse, for example `URL302` or a `q` value that is not a URL. That exception is not modelled; `Redirect` carries the location as given.
- `toLowerCase` is modelled on ASCII letters only. This covers the User-Agent, the `/favicon.ico` test and the `nginx` keyword; other letters keep their case in the model.
- Proxy.Proxy: the recursion in the source has no bound. The model follows at most `maxHops` foreign redirects and reports `HopLimit` when a longer chain remains.
- Router.Dispatch: in the unreachable `exp4` branch, the lookbehind rewrite that builds a jsDelivr URL is not modelled. That branch is proved dead.
- Router.LoopbackRoundTrip: holds for locations with a lower-case scheme or none. A location such as `HTTPS://github.com/...` is GitHub-shaped to the case-insensitive expressions, but the case-sensitive scheme strip keeps its scheme. Such locations are outside the lemma.
- Router.LoopbackTarget: holds for the same locations as `LoopbackRoundTrip`. For `HTTPS://github.com/...` the scheme is kept, the client's target becomes `https://HTTPS://github.com/...`, and no expression accepts that.
- Proxy.Proxy: follows the corrected line 172, so an in-family redirect points at the worker's own origin. As written, it points at the upstream origin (`Proxy.LoopbackAsWritten`).
- Handler.HttpHandler: forwards to `Proxy.Proxy`, and so uses the corrected line 172 as well.
- Router.Worker.OnRequest: decides through `Router.Route`, which extracts the target with the corrected lines 317-330 (`Router.TargetFromPath`). As written, with prefix `/`, every request that is not blocked, the icon or a `?q=` link falls back (`Router.AsWrittenNeverMatches`). The model does not build a second, as-written `Route` or `ProxySpec`.
- The URL parser is an uninterpreted parameter. The model does not check that the `pathname` of the rewritten location equals the prefix and the stripped location; percent-encoding and `//` handling by the runtime are not modelled.
- Headers are a map keyed by lower-case names. Combining repeated header values, and the runtime's lower-casing of names, are not modelled.
- Bodies are opaque stream identities. A request body that was consumed by the first fetch and reused on a followed redirect is not distinguished from a fresh one.
- Concurrency: requests that run at the same time and append to the block list together are modelled one after another.
- The wording of the runtime's exception messages (`NullUrlMessage`, `StatusRangeMessage`) follows V8 and is approximate.
- Router.JsDelivrBlob: stated for links that start with `https://github.com` in exact case. Links with `http://` or no scheme take the other two arms of `Router.MirrorHost`, and no lemma covers them.

## Findings

| source | as written | input that shows it | evidently intended | confidence | as-written member | corrected member |
|---|---|---|---|---|---|---|
| _worker.js:317-330 | with `PREFIX` `'/'` the prefix is never removed, so the pathname's leading `/` stays in the target | pathname `/github.com/u/r/releases/download/v1/a.zip` gives the target `https:///github.com/u/r/...`, which no expression matches, so the request falls back | remove the prefix from the pathname, as the comment at line 326 describes (`/github.com/...` becomes `github.com/...`) | high, not executed | Router.TargetFromPathAsWritten | Router.TargetFromPath |
| _worker.js:172 | the rewritten location uses `urlObj.origin`, which is the origin of the upstream target | a redirect from `https://github.com/...` to `https://raw.githubusercontent.com/a/b/main/f`, with the worker at `https://proxy.example`, becomes `https://github.com/raw.githubusercontent.com/a/b/main/f` | send the client back to the worker's own origin, as lines 166-171 describe | high, not executed | Proxy.LoopbackAsWritten | Proxy.Loopback |

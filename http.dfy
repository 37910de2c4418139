/** The pieces of the Fetch API the worker touches: header sets, bodies,
    request initialisers, responses, parsed URLs, and the two capabilities it
    borrows from the runtime (`fetch` and the URL parser), which are given to
    the model as functions. */
module Http {
  import opened Strings

  /** A header set as a map from lower-case header name to value. */
  type HeaderMap = map<string, string>

  /** A message body. Bodies are streamed through, never read. */
  datatype Body =
    | NoBody               // `null`
    | Text(text: string)   // a body the worker writes itself
    | Stream(id: nat)      // a client or upstream stream, passed on as it is

  datatype Response = Response(status: int, headers: HeaderMap, body: Body)

  /** The header set the runtime gives a response built from a string. */
  const TextHeaders: HeaderMap := map["content-type" := "text/plain;charset=UTF-8"]

  /** `new Response(text, {status})` */
  function TextResponse(status: int, text: string): (r: Response)
    ensures r.status == status && r.body == Text(text) && r.headers == TextHeaders
  {
    Response(status, TextHeaders, Text(text))
  }

  /** A response written from a string carries the runtime's content type and
      no other header, so in particular no CORS header: unlike the exposed
      upstream responses of `proxy`, the handler's own 403 and 400, and the
      500 of `proxy` itself, are not readable cross-origin. */
  lemma TextResponseHeaders(status: int, text: string)
    ensures TextResponse(status, text).headers.Keys == {"content-type"}
    ensures "access-control-allow-origin" !in TextResponse(status, text).headers
    ensures TextResponse(status, text).body.Text? && TextResponse(status, text).body.text == text
  {
  }

  /** `RequestInit.redirect` */
  datatype RedirectMode = Manual | Follow

  /** `verb` is the request method (`method` is a keyword here). */
  datatype RequestInit = RequestInit(verb: string, headers: HeaderMap, redirect: RedirectMode, body: Body)

  /** The parts of a parsed `URL` the worker reads. */
  datatype Url = Url(href: string, origin: string)

  /** What one call of `fetch` produces: a response, or a rejected promise. */
  datatype Fetched =
    | Fetched(status: int, headers: HeaderMap, body: Body)
    | NetworkError(message: string)

  /** `fetch(href, init)` */
  type Fetcher = (string, RequestInit) -> Fetched

  /** `newUrl(s)`: the URL Standard's parser, `None` where `new URL(s)` throws. */
  type Parser = string -> Option<Url>

  /** A `Headers` object. Names are kept in lower case, which is how the
      worker writes every name it sets, deletes or looks up. */
  class Headers {
    var entries: HeaderMap

    /** `new Headers(init)`: a copy of `init`. */
    constructor (init: HeaderMap)
      ensures entries == init
    {
      entries := init;
    }

    function Has(name: string): bool
      reads this
    {
      name in entries
    }

    method Set(name: string, value: string)
      modifies this
      ensures entries == old(entries)[name := value]
    {
      entries := entries[name := value];
    }

    method Delete(name: string)
      modifies this
      ensures entries == old(entries) - {name}
    {
      entries := entries - {name};
    }
  }
}

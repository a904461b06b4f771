/**
 * The Next.js image proxy (manga-reader-next/pages/api/image-proxy.ts): it
 * takes `?url=`, refuses anything that is not an absolute URL on the MangaDex
 * uploads host, fetches the image with a Referer MangaDex accepts, and streams
 * it back with long CDN caching. URL parsing and the upstream fetch are
 * parameters of the model.
 */
module ImageProxy {
  import opened Wrappers
  import opened Js
  import opened Catalog

  /** The only host the proxy fetches from, so that it is not an open proxy. */
  const AllowedHostnames: set<string> := {UploadsHost}

  const Referer := "https://mangadex.org/"
  const AcceptImages := "image/avif,image/webp,image/apng,image/*,*/*;q=0.8"
  const UserAgent := "ReadOnlyManga/1.0 (Vercel Serverless)"
  const DefaultContentType := "image/jpeg"
  const CdnCaching := "public, s-maxage=86400, stale-while-revalidate=43200"

  /** The headers sent upstream. */
  const UpstreamHeaders: map<string, string> :=
    map["Referer" := Referer, "Accept" := AcceptImages, "User-Agent" := UserAgent]

  /** `req.query.url`: absent, given once, or given several times (an array). */
  datatype QueryParam = Absent | Single(s: string) | Repeated(values: seq<string>)

  /**
   * `(req.query.url as string) || ''`, then the emptiness test: the text
   * handed to the URL parser, or None when the parameter counts as missing.
   * An array is truthy even when empty and reaches the parser as its
   * comma-joined string.
   */
  function UrlArgument(q: QueryParam): (r: Option<string>)
    ensures q.Absent? ==> r == None
    ensures q.Single? ==> (r.Some? <==> q.s != "") && (r.Some? ==> r.value == q.s)
    ensures q.Repeated? ==> r == Some(Join(q.values, ","))
  {
    match q
    case Absent => None
    case Single(s) => if s == "" then None else Some(s)
    case Repeated(vs) => Some(Join(vs, ","))
  }

  /** What `new URL(...)` yields when it does not throw. */
  datatype Url = Url(hostname: string, href: string)

  datatype FetchRequest = FetchRequest(url: string, headers: map<string, string>, noStore: bool)

  /** Reading the upstream body with `arrayBuffer()`, which can fail. */
  datatype BodyRead = Bytes(data: seq<bv8>) | ReadFailed

  /** An upstream response; absent headers are None. */
  datatype Upstream = Upstream(status: int, contentType: Option<string>, contentLength: Option<string>, body: BodyRead)

  /** `fetch` either answers or rejects. */
  datatype FetchResult = Answered(response: Upstream) | Threw

  /** `Response.ok`. */
  predicate Ok(u: Upstream) {
    200 <= u.status <= 299
  }

  datatype ResponseBody = NoBody | JsonError(error: string) | Binary(data: seq<bv8>)

  datatype Reply = Reply(status: int, headers: map<string, string>, body: ResponseBody)

  /** One handled request: what was fetched upstream, if anything, and the reply sent. */
  datatype Exchange = Exchange(request: Option<FetchRequest>, reply: Reply)

  /** The request the proxy makes for an accepted URL. */
  function UpstreamRequest(parsed: Url): FetchRequest {
    FetchRequest(parsed.href, UpstreamHeaders, true)
  }

  /** The headers copied from a successful upstream response. */
  function ImageHeaders(u: Upstream): (h: map<string, string>)
    ensures h.Keys == {"Content-Type", "Cache-Control"} + (if Filled(u.contentLength) then {"Content-Length"} else {})
    ensures h["Content-Type"] == (if Filled(u.contentType) then u.contentType.value else DefaultContentType)
    ensures h["Cache-Control"] == CdnCaching
    ensures Filled(u.contentLength) ==> h["Content-Length"] == u.contentLength.value
  {
    var typed := map["Content-Type" := if Filled(u.contentType) then u.contentType.value else DefaultContentType];
    var sized := if Filled(u.contentLength) then typed["Content-Length" := u.contentLength.value] else typed;
    sized["Cache-Control" := CdnCaching]
  }

  /** The URL the proxy accepts for `q`, if it accepts one. */
  function Accepted(q: QueryParam, parse: string -> Option<Url>): Option<Url> {
    var arg := UrlArgument(q);
    if arg.None? || parse(arg.value).None? || parse(arg.value).value.hostname !in AllowedHostnames then None
    else parse(arg.value)
  }

  /** The whole handler as a function of the query, the URL parser and the upstream. */
  function Handle(q: QueryParam, parse: string -> Option<Url>, fetch: FetchRequest -> FetchResult): (e: Exchange)
    // an upstream request is made exactly for a present, parsable URL on the allowed host
    ensures e.request.Some? <==> Accepted(q, parse).Some?
    ensures e.request.Some? ==> Accepted(q, parse).value.hostname in AllowedHostnames
                                && e.request.value == FetchRequest(Accepted(q, parse).value.href, UpstreamHeaders, true)
    ensures UrlArgument(q).None? ==> e.reply == Reply(400, map[], JsonError("Missing url parameter"))
    ensures UrlArgument(q).Some? && parse(UrlArgument(q).value).None? ==> e.reply == Reply(400, map[], JsonError("Invalid URL"))
    ensures UrlArgument(q).Some? && parse(UrlArgument(q).value).Some? && parse(UrlArgument(q).value).value.hostname !in AllowedHostnames
            ==> e.reply == Reply(400, map[], JsonError("Host not allowed"))
    // a rejected fetch and a failed body read both end in a 500
    ensures e.request.Some? && fetch(e.request.value).Threw? ==> e.reply == Reply(500, map[], JsonError("Internal error"))
    ensures e.request.Some? && fetch(e.request.value).Answered? ==>
              var u := fetch(e.request.value).response;
              (!Ok(u) ==> e.reply == Reply(u.status, map[], JsonError("Upstream error " + IntToString(u.status))))
              && (Ok(u) && u.body.Bytes? ==> e.reply == Reply(200, ImageHeaders(u), Binary(u.body.data)))
              && (Ok(u) && u.body.ReadFailed? ==> e.reply == Reply(500, ImageHeaders(u), JsonError("Internal error")))
    // only a fetched image is ever sent as binary, and then with status 200
    ensures e.reply.body.Binary? ==> e.request.Some? && e.reply.status == 200
  {
    var arg := UrlArgument(q);
    if arg.None? then Exchange(None, Reply(400, map[], JsonError("Missing url parameter")))
    else if parse(arg.value).None? then Exchange(None, Reply(400, map[], JsonError("Invalid URL")))
    else if parse(arg.value).value.hostname !in AllowedHostnames then Exchange(None, Reply(400, map[], JsonError("Host not allowed")))
    else
      var request := UpstreamRequest(parse(arg.value).value);
      match fetch(request)
      case Threw => Exchange(Some(request), Reply(500, map[], JsonError("Internal error")))
      case Answered(u) =>
        if !Ok(u) then Exchange(Some(request), Reply(u.status, map[], JsonError("Upstream error " + IntToString(u.status))))
        else match u.body
          case ReadFailed => Exchange(Some(request), Reply(500, ImageHeaders(u), JsonError("Internal error")))
          case Bytes(data) => Exchange(Some(request), Reply(200, ImageHeaders(u), Binary(data)))
  }

  /**
   * Every cover URL the catalog builds is proxied unchanged, given a URL
   * parser that, on those URLs, reports the host of an `https://` URL as the
   * catalog reads it and keeps the URL as its `href`.
   */
  lemma CoverUrlsAreProxied(mangaId: string, fileName: string, size: CoverSize,
                            parse: string -> Option<Url>, fetch: FetchRequest -> FetchResult)
    requires forall u :: u in CoverImageUrlWithFallback(mangaId, fileName, size) && HttpsHost(u).Some? ==>
               parse(u) == Some(Url(HttpsHost(u).value, u))
    ensures forall u :: u in CoverImageUrlWithFallback(mangaId, fileName, size) ==>
              Handle(Single(u), parse, fetch).request == Some(FetchRequest(u, UpstreamHeaders, true))
  {
    CoverUrlsOnUploadsHost(mangaId, fileName, size);
    forall u | u in CoverImageUrlWithFallback(mangaId, fileName, size)
      ensures Handle(Single(u), parse, fetch).request == Some(FetchRequest(u, UpstreamHeaders, true))
    {
      assert HttpsHost(u) == Some(UploadsHost);
      assert u != "";
    }
  }

  /** Node's `ServerResponse` as far as the handler uses it. */
  class ServerResponse {
    var statusCode: int
    var headers: map<string, string>
    var body: ResponseBody

    constructor ()
      ensures statusCode == 200 && headers == map[] && body == NoBody
    {
      statusCode := 200;
      headers := map[];
      body := NoBody;
    }

    method Status(code: int)
      modifies this
      ensures statusCode == code && headers == old(headers) && body == old(body)
    {
      statusCode := code;
    }

    method SetHeader(name: string, value: string)
      modifies this
      ensures headers == old(headers)[name := value]
      ensures statusCode == old(statusCode) && body == old(body)
    {
      headers := headers[name := value];
    }

    /** `res.json({ error })`. */
    method Json(error: string)
      modifies this
      ensures body == JsonError(error) && statusCode == old(statusCode) && headers == old(headers)
    {
      body := JsonError(error);
    }

    method Send(data: seq<bv8>)
      modifies this
      ensures body == Binary(data) && statusCode == old(statusCode) && headers == old(headers)
    {
      body := Binary(data);
    }
  }

  /**
   * The handler, statement by statement, writing into a fresh response; it
   * returns the upstream request it made.
   */
  method Handler(q: QueryParam, parse: string -> Option<Url>, fetch: FetchRequest -> FetchResult, res: ServerResponse)
    returns (request: Option<FetchRequest>)
    requires res.statusCode == 200 && res.headers == map[] && res.body == NoBody
    modifies res
    ensures Exchange(request, Reply(res.statusCode, res.headers, res.body)) == Handle(q, parse, fetch)
  {
    request := None;
    var url := UrlArgument(q);
    if url.None? {
      res.Status(400);
      res.Json("Missing url parameter");
      return;
    }
    var parsed := parse(url.value);
    if parsed.None? {
      res.Status(400);
      res.Json("Invalid URL");
      return;
    }
    if parsed.value.hostname !in AllowedHostnames {
      res.Status(400);
      res.Json("Host not allowed");
      return;
    }
    request := Some(FetchRequest(parsed.value.href, UpstreamHeaders, true));
    var answer := fetch(request.value);
    if answer.Threw? {
      res.Status(500);
      res.Json("Internal error");
      return;
    }
    var upstream := answer.response;
    if !Ok(upstream) {
      res.Status(upstream.status);
      res.Json("Upstream error " + IntToString(upstream.status));
      return;
    }
    var contentType := if Filled(upstream.contentType) then upstream.contentType.value else DefaultContentType;
    res.SetHeader("Content-Type", contentType);
    if Filled(upstream.contentLength) {
      res.SetHeader("Content-Length", upstream.contentLength.value);
    }
    res.SetHeader("Cache-Control", CdnCaching);
    if upstream.body.ReadFailed? {
      res.Status(500);
      res.Json("Internal error");
      return;
    }
    res.Status(200);
    res.Send(upstream.body.data);
  }
}

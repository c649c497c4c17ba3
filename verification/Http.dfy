/** The parts of an HTTP request that policy and forwarding look at. */
module Http {
  import opened Body
  import opened Headers

  /** A parsed URL. `path` is decoded, `escaped` is its EscapedPath, `host` may carry a port, `bare` says
      that there is a '?' even if the query is empty. */
  datatype Url = Url(scheme: string, host: string, path: string, escaped: string, query: string, bare: bool)

  /** url.RequestURI. */
  function RequestURI(u: Url): string {
    (if u.escaped == "" then "/" else u.escaped) + if u.query == "" && !u.bare then "" else "?" + u.query
  }

  /** A request without its body; `host` is the Host header. */
  datatype Request = Request(verb: string, host: string, url: Url, header: Header)

  /** A request that is being handled: http.Request, with its header map and its body stream. A null
      body stands for nil and http.NoBody. */
  class Message {
    const verb: string
    var host: string
    var url: Url
    const header: HeaderMap
    var body: Stream?
    const length: int  // ContentLength, -1 when unknown

    constructor (r: Request, body: Stream?, length: int)
      ensures Value() == r && this.body == body && this.length == length
      ensures fresh(header)
    {
      verb, host, url := r.verb, r.host, r.url;
      header := new HeaderMap(r.header);
      this.body := body;
      this.length := length;
    }

    ghost function Value(): Request
      reads this`host, this`url, header
    {
      Request(verb, host, url, header.m)
    }

    /** The connection behind the body. */
    ghost function Connection(): Source?
      reads this`body
    {
      SourceOf(body)
    }

    /** What the body still holds. */
    ghost function Contents(): Bytes
      reads this`body, body, Connection()
    {
      Held(body)
    }
  }

  ghost function SourceOf(b: Stream?): Source? { if b == null then null else b.source }

  ghost function Held(b: Stream?): Bytes
    reads b, SourceOf(b)
  {
    if b == null then [] else b.Unread()
  }
}

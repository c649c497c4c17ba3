/** The reroute rewriter (internal/router/router.go). */
module Router {
  import opened Circuit
  import opened Common
  import opened Headers
  import opened Http
  import HostMatch
  import Text

  const HEADER_TOKEN := "x-tfy-api-key"
  const HEADER_ORIG := "x-tfy-original-url"
  const HEADER_CTX := "x-tfy-metadata"

  /** `statics` are the configured extra headers, in the order in which the map is visited. */
  datatype Settings = Settings(
    gateway: Option<Url>, failClosed: bool, authDisabled: bool,
    headerToken: string, headerOrig: string, headerCtx: string, statics: seq<(string, string)>)
  {
    predicate DefaultNames() {
      headerToken == HEADER_TOKEN && headerOrig == HEADER_ORIG && headerCtx == HEADER_CTX
    }

    function GatewayHost(): string { if gateway.Some? then HostMatch.Normalize(gateway.value.host) else "" }
  }

  /** scheme://host/path?query of a request, before it is rewritten. */
  function AbsoluteURL(r: Request): string {
    (if r.url.scheme == "" then "https" else r.url.scheme) + "://"
    + (if r.host == "" then r.url.host else r.host) + RequestURI(r.url)
  }

  /** The request already targets the gateway. */
  predicate Loops(s: Settings, r: Request) {
    && s.GatewayHost() != ""
    && (HostMatch.Normalize(r.host) == s.GatewayHost() || HostMatch.Normalize(r.url.host) == s.GatewayHost())
  }

  /** The request may be rerouted; `open` is what the breaker says. */
  predicate Admits(s: Settings, r: Request, token: string, open: bool) {
    s.gateway.Some? && !Loops(s, r) && (token != "" || s.authDisabled) && !open
  }

  /** The text of a host field: nothing, or a well-formed authority. */
  ghost predicate Spells(text: string, a: Option<HostMatch.Authority>) {
    if a.Some? then a.value.WellFormed() && text == a.value.HostPort() else text == ""
  }

  ghost predicate SameName(a: Option<HostMatch.Authority>, b: HostMatch.Authority) {
    a.Some? && Text.Lower(a.value.name) == Text.Lower(b.name)
  }

  /** `answer` is what the reroute rule gives: there is a gateway, neither host of the request is the
      gateway's name in whatever spelling, a token is there or not needed, and the breaker is not open. */
  ghost predicate AdmissionRule(s: Settings, r: Request, token: string, open: bool, answer: bool) {
    && (s.gateway == None ==> !answer)
    && forall g: HostMatch.Authority, host, urlHost ::
         s.gateway.Some? && Spells(s.gateway.value.host, Some(g)) && Spells(r.host, host) && Spells(r.url.host, urlHost)
         ==> (answer <==>
                !SameName(host, g) && !SameName(urlHost, g) && (token != "" || s.authDisabled) && !open)
  }

  lemma SpelledHost(text: string, a: Option<HostMatch.Authority>)
    requires Spells(text, a)
    ensures HostMatch.Normalize(text) == if a.Some? then Text.Lower(a.value.name) else ""
  {
    if a.Some? { HostMatch.NormalizeAuthority(a.value); }
  }

  /** The loop guard, the token check and the breaker check amount to that rule, no more and no less. */
  lemma AdmittedIff(s: Settings, r: Request, token: string, open: bool)
    ensures AdmissionRule(s, r, token, open, Admits(s, r, token, open))
  {
    hide HostMatch.Normalize, Spells;
    forall g: HostMatch.Authority, host, urlHost |
        s.gateway.Some? && Spells(s.gateway.value.host, Some(g)) && Spells(r.host, host) && Spells(r.url.host, urlHost)
      ensures Admits(s, r, token, open) <==>
                !SameName(host, g) && !SameName(urlHost, g) && (token != "" || s.authDisabled) && !open
    {
      SpelledHost(s.gateway.value.host, Some(g));
      SpelledHost(r.host, host);
      SpelledHost(r.url.host, urlHost);
      NameIsThere(s.gateway.value.host, g);
    }
  }

  lemma NameIsThere(text: string, a: HostMatch.Authority)
    requires Spells(text, Some(a))
    ensures Text.Lower(a.name) != ""
  {}

  function WithStatics(h: Header, statics: seq<(string, string)>): Header {
    if statics == [] then h
    else
      var n := |statics| - 1;
      Set(WithStatics(h, statics[..n]), statics[n].0, statics[n].1)
  }

  function GatewayHeader(s: Settings, r: Request, token: string, ctx: string): Header {
    var h := Set(WithStatics(r.header, s.statics), s.headerOrig, AbsoluteURL(r));
    Set(if token != "" then Set(h, s.headerToken, token) else h, s.headerCtx, ctx)
  }

  function JoinQuery(gateway: string, own: string): string {
    if gateway == "" then own else if own == "" then gateway else gateway + "&" + own
  }

  function GatewayUrl(g: Url, u: Url): Url {
    var keep := g.path == "" || g.path == "/";
    Url(g.scheme, g.host, if keep then u.path else g.path, if keep then u.escaped else g.escaped,
        JoinQuery(g.query, u.query), u.bare)
  }

  /** What the gateway receives. */
  function Rewritten(s: Settings, r: Request, token: string, ctx: string): Request
    requires s.gateway.Some?
  {
    Request(r.verb, s.gateway.value.host, GatewayUrl(s.gateway.value, r.url), GatewayHeader(s, r, token, ctx))
  }

  class Router {
    const settings: Settings
    const breaker: Breaker

    constructor (settings: Settings, breaker: Breaker)
      ensures this.settings == settings && this.breaker == breaker
    {
      this.settings := settings;
      this.breaker := breaker;
    }

    /** Mutates `m` in place, or leaves it alone and returns false. `ctx` is the attribution text. */
    method Rewrite(m: Message, token: string, ctx: string, now: int) returns (rerouted: bool)
      requires breaker.Valid()
      modifies m`host, m`url, m.header
      ensures rerouted <==> Admits(settings, old(m.Value()), token, breaker.OpenAt(now))
      ensures AdmissionRule(settings, old(m.Value()), token, breaker.OpenAt(now), rerouted)
      ensures m.Value() == if rerouted then Rewritten(settings, old(m.Value()), token, ctx) else old(m.Value())
    {
      AdmittedIff(settings, m.Value(), token, breaker.OpenAt(now));
      hide Breaker.Valid, Breaker.OpenAt, RequestURI, HostMatch.Normalize, WithStatics, Set, AdmissionRule;
      if settings.gateway == None { return false; }
      var gatewayHost := settings.GatewayHost();
      if gatewayHost != "" {
        if HostMatch.Normalize(m.host) == gatewayHost || HostMatch.Normalize(m.url.host) == gatewayHost {
          return false;
        }
      }
      if token == "" && !settings.authDisabled { return false; }
      var open := breaker.IsOpen(now);
      if open { return false; }

      var orig := (if m.url.scheme == "" then "https" else m.url.scheme) + "://"
                  + (if m.host == "" then m.url.host else m.host) + RequestURI(m.url);
      AddHeaders(m.header, orig, token, ctx);

      var g := settings.gateway.value;
      m.url := m.url.(scheme := g.scheme, host := g.host);
      m.host := g.host;
      if g.path != "" && g.path != "/" { m.url := m.url.(path := g.path, escaped := g.escaped); }
      if g.query != "" {
        m.url := m.url.(query := if m.url.query == "" then g.query else g.query + "&" + m.url.query);
      }
      return true;
    }

    /** The configured statics first, so that the x-tfy headers win. */
    method AddHeaders(header: HeaderMap, orig: string, token: string, ctx: string)
      modifies header
      ensures var h := Set(WithStatics(old(header.m), settings.statics), settings.headerOrig, orig);
              header.m == Set(if token != "" then Set(h, settings.headerToken, token) else h, settings.headerCtx, ctx)
    {
      var statics := settings.statics;
      for i := 0 to |statics|
        invariant header.m == WithStatics(old(header.m), statics[..i])
      {
        assert statics[..i + 1][..i] == statics[..i];
        header.Put(statics[i].0, statics[i].1);
      }
      assert statics[..|statics|] == statics;
      header.Put(settings.headerOrig, orig);
      if token != "" { header.Put(settings.headerToken, token); }
      header.Put(settings.headerCtx, ctx);
    }

    method NoteGatewaySuccess()
      requires breaker.Valid()
      modifies breaker
      ensures breaker.Valid() && breaker.history == old(breaker.history) + [Succeeded]
    {
      breaker.Success();
    }

    method NoteGatewayFailure(now: int)
      requires breaker.Valid()
      modifies breaker
      ensures breaker.Valid() && breaker.history == old(breaker.history) + [Failed(now)]
    {
      breaker.Failure(now);
    }
  }

  // ---------------------------------------------------------------- what rewriting does to a request

  /** The value the statics leave under canonical name `k`: the last one wins. */
  function Final(statics: seq<(string, string)>, k: string): Option<string> {
    if statics == [] then None
    else
      var n := |statics| - 1;
      if Canon(statics[n].0) == k then Some(statics[n].1) else Final(statics[..n], k)
  }

  lemma {:induction false} StaticsAt(h: Header, statics: seq<(string, string)>, k: string)
    ensures k in WithStatics(h, statics) <==> k in h || Final(statics, k).Some?
    ensures k in WithStatics(h, statics) ==>
              WithStatics(h, statics)[k] == if Final(statics, k).Some? then [Final(statics, k).value] else h[k]
  {
    hide Canon;
    if statics != [] { StaticsAt(h, statics[..|statics| - 1], k); }
  }

  /** Rewriting is additive: a header that is neither one of the three nor a static, the provider's own
      credentials in particular, goes through as it was. */
  lemma RewriteIsAdditive(s: Settings, r: Request, token: string, ctx: string, k: string)
    requires s.gateway.Some? && Final(s.statics, k) == None
    requires k != Canon(s.headerOrig) && k != Canon(s.headerCtx) && (token != "" ==> k != Canon(s.headerToken))
    ensures var g := Rewritten(s, r, token, ctx).header;
            (k in g <==> k in r.header) && (k in g ==> g[k] == r.header[k])
  {
    hide Canon;
    StaticsAt(r.header, s.statics, k);
  }

  lemma CanonLength(a: string, b: string)
    requires |a| != |b|
    ensures Canon(a) != Canon(b)
  {
    assert |Canon(a)| == |a| && |Canon(b)| == |b|;
  }

  /** The gateway reads the original URL, the token and the context whatever headers are configured or
      already present; a configured x-tfy-api-key is overridden exactly when there is a token. */
  lemma IdentityHeadersWin(s: Settings, r: Request, token: string, ctx: string)
    requires s.gateway.Some? && s.DefaultNames()
    ensures var g := Rewritten(s, r, token, ctx).header;
            && Get(g, "x-tfy-original-url") == AbsoluteURL(r)
            && Get(g, "x-tfy-metadata") == ctx
            && Get(g, "x-tfy-api-key")
                 == if token != "" then token else Get(WithStatics(r.header, s.statics), "x-tfy-api-key")
  {
    CanonLength(HEADER_ORIG, HEADER_TOKEN);
    CanonLength(HEADER_ORIG, HEADER_CTX);
    CanonLength(HEADER_TOKEN, HEADER_CTX);
    hide Canon, AbsoluteURL, WithStatics;
  }

  /** A rewritten request is never rewritten again, unless the gateway's host normalizes to nothing. */
  lemma NeverRewrittenTwice(s: Settings, r: Request, token: string, ctx: string)
    requires s.gateway.Some?
    ensures Loops(s, Rewritten(s, r, token, ctx)) <==> s.GatewayHost() != ""
  {}

  /** The text of the original URL. */
  lemma OriginalUrlSpelled(r: Request)
    ensures var scheme := if r.url.scheme != "" then r.url.scheme else "https";
            var host := if r.host != "" then r.host else r.url.host;
            var path := if r.url.escaped != "" then r.url.escaped else "/";
            && (r.url.query != "" ==> AbsoluteURL(r) == scheme + "://" + host + path + "?" + r.url.query)
            && (r.url.query == "" && r.url.bare ==> AbsoluteURL(r) == scheme + "://" + host + path + "?")
            && (r.url.query == "" && !r.url.bare ==> AbsoluteURL(r) == scheme + "://" + host + path)
  {
    var scheme := if r.url.scheme != "" then r.url.scheme else "https";
    var host := if r.host != "" then r.host else r.url.host;
    var path := if r.url.escaped != "" then r.url.escaped else "/";
    var front := scheme + "://" + host;
    assert front + (path + ("?" + r.url.query)) == front + path + "?" + r.url.query;
    assert path + "" == path;
  }

  /** Where a rerouted request goes: to the gateway's scheme and host; to its path, unless it has none; the
      gateway's own query comes in front of the request's. Method, '?' and the rest stay. */
  lemma RewrittenTarget(s: Settings, r: Request, token: string, ctx: string)
    requires s.gateway.Some?
    ensures var g, out := s.gateway.value, Rewritten(s, r, token, ctx);
            && out.verb == r.verb && out.url.scheme == g.scheme && out.url.host == g.host == out.host
            && out.url.bare == r.url.bare
            && (g.path == "" || g.path == "/" ==> out.url.path == r.url.path && out.url.escaped == r.url.escaped)
            && (g.path != "" && g.path != "/" ==> out.url.path == g.path && out.url.escaped == g.escaped)
            && (g.query == "" ==> out.url.query == r.url.query)
            && (g.query != "" && r.url.query == "" ==> out.url.query == g.query)
            && (g.query != "" && r.url.query != "" ==> out.url.query == g.query + "&" + r.url.query)
  {}
}

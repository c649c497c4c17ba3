/** The reference gateway's forwarding (proxyHandler in tools/aitori-gateway/main.go) as the inverse of
    the router's rewrite: what reaches the provider through the gateway is what would have reached it
    directly.
*/
module Gateway {
  import opened Body
  import opened Common
  import opened Headers
  import opened Http
  import opened Router
  import opened Text

  const OWN_PREFIX := "x-tfy-"

  /** Where a request goes: scheme, host and the path with query. */
  datatype Target = Target(scheme: string, host: string, uri: string)

  datatype Answer =
    | BadRequest    // no original URL
    | Unauthorized  // no token although one is required
    | BadGateway    // the original URL does not parse
    | Forward(verb: string, target: Target, header: Header, body: Bytes)

  /** The parts of an absolute URL text that the forwarded request keeps: the fragment goes. */
  function ParseTarget(text: string): Option<Target> {
    var t := text[..Index(text, '#')];
    var i := Index(t, ':');
    if i == 0 || !("://" <= t[i..]) then None
    else
      var rest := t[i + 3..];
      var j := Index(rest[..Index(rest, '?')], '/');
      Some(Target(t[..i], rest[..j], (if j < |rest| && rest[j] == '/' then "" else "/") + rest[j..]))
  }

  /** The gateway's decision on a request, whose body it reads in full and sends on. */
  method Handle(m: Message, requireAuth: bool) returns (a: Answer)
    requires CanonicalKeys(m.header.m)
    modifies m.body, m.Connection()
    ensures a == Handled(m.Value(), old(m.Contents()), requireAuth)
  {
    hide Get, ParseTarget, Copied, CanonicalKeys;
    var orig := Get(m.header.m, HEADER_ORIG);
    if orig == "" { return BadRequest; }
    if Get(m.header.m, HEADER_TOKEN) == "" && requireAuth { return Unauthorized; }
    var body := [];
    if m.body != null { body := m.body.ReadAll(); }
    var target := ParseTarget(orig);
    if target == None { return BadGateway; }
    var out := new HeaderMap(map[]);
    out.CopyFields(m.header.m, Some(OWN_PREFIX));
    return Forward(m.verb, target.value, out.m, body);
  }

  function Handled(r: Request, body: Bytes, requireAuth: bool): Answer {
    var orig := Get(r.header, HEADER_ORIG);
    if orig == "" then BadRequest
    else if requireAuth && Get(r.header, HEADER_TOKEN) == "" then Unauthorized
    else if ParseTarget(orig) == None then BadGateway
    else Forward(r.verb, ParseTarget(orig).value, Copied(r.header, Some(OWN_PREFIX)), body)
  }

  /** When the gateway turns a rerouted request away: never for its URL being absent, and for want of a
      token exactly when it asks for one and neither the agent, nor a configured header, nor the request
      itself brought one. */
  lemma TurnedAwayIff(s: Settings, r: Request, body: Bytes, token: string, ctx: string, requireAuth: bool)
    requires s.gateway.Some? && s.DefaultNames()
    ensures var a := Handled(Rewritten(s, r, token, ctx), body, requireAuth);
            && a != BadRequest
            && (a == Unauthorized <==>
                  requireAuth && token == "" && Get(WithStatics(r.header, s.statics), HEADER_TOKEN) == "")
  {
    IdentityHeadersWin(s, r, token, ctx);
    assert AbsoluteURL(r) != "";
    hide AbsoluteURL, WithStatics, Get, GatewayHeader, ParseTarget, Copied;
  }

  /** Any other request: the three ways to be turned away, and when. */
  lemma AnswerSpelled(r: Request, body: Bytes, requireAuth: bool)
    ensures var a, orig, token := Handled(r, body, requireAuth), Get(r.header, HEADER_ORIG), Get(r.header, HEADER_TOKEN);
            && (a == BadRequest <==> orig == "")
            && (a == Unauthorized <==> orig != "" && requireAuth && token == "")
            && (a == BadGateway <==> orig != "" && !(requireAuth && token == "") && ParseTarget(orig) == None)
            && (a.Forward? ==> a.verb == r.verb && a.body == body)
  {
    hide Get, ParseTarget, Copied;
  }

  // ---------------------------------------------------------------- the original URL survives

  /** A request as the agent sends it on: scheme and host are there, the path is absolute. */
  predicate Addressed(r: Request) {
    && r.url.scheme != "" && (forall c :: c in r.url.scheme ==> 'a' <= c <= 'z')
    && r.host != "" && (forall c :: c in r.host ==> c !in "/?#@")
    && (r.url.escaped == "" || (r.url.escaped[0] == '/' && (forall c :: c in r.url.escaped ==> c !in "?#")))
  }

  lemma IndexIsLength(s: string, c: char)
    requires c !in s
    ensures Index(s, c) == |s|
  {}

  /** Cutting at the first `c` of a + b where `a` has none. */
  lemma IndexSkips(a: string, b: string, c: char)
    requires c !in a
    ensures Index(a + b, c) == |a| + Index(b, c)
  {
    var i := Index(b, c);
    assert (a + b)[..|a| + i] == a + b[..i];
    if i < |b| { IndexAt(a + b, c, |a| + i); } else { assert (a + b)[..|a| + i] == a + b; }
  }

  lemma SchemeCut(scheme: string, rest: string)
    requires ':' !in scheme
    ensures var t := scheme + "://" + rest;
            Index(t, ':') == |scheme| && "://" <= t[|scheme|..] && t[..|scheme|] == scheme && t[|scheme| + 3..] == rest
  {
    var t := scheme + "://" + rest;
    assert t == scheme + ("://" + rest);
    IndexSkips(scheme, "://" + rest, ':');
  }

  lemma HostCut(host: string, path: string, query: string)
    requires (forall c :: c in host ==> c !in "/?#@")
    requires path != "" && path[0] == '/' && '?' !in path && (query == "" || query[0] == '?')
    ensures var rest := host + (path + query);
            && Index(rest[..Index(rest, '?')], '/') == |host|
            && rest[..|host|] == host && rest[|host|..] == path + query && rest[|host|] == '/'
  {
    var rest := host + (path + query);
    assert rest == (host + path) + query;
    assert '?' in "/?#@" && '/' in "/?#@";
    IndexSkips(host + path, query, '?');
    assert Index(query, '?') == 0;
    assert rest[..|host + path|] == host + path;
    IndexSkips(host, path, '/');
  }

  lemma SplitRequestURI(u: Url) returns (path: string, query: string)
    ensures RequestURI(u) == path + query && (query == "" || query[0] == '?')
    ensures path == if u.escaped == "" then "/" else u.escaped
  {
    path := if u.escaped == "" then "/" else u.escaped;
    query := if u.query == "" && !u.bare then "" else "?" + u.query;
  }

  lemma HashOnlyInQuery(r: Request)
    requires Addressed(r)
    ensures '#' in AbsoluteURL(r) <==> '#' in r.url.query
    ensures '#' !in r.url.scheme + "://" + r.host
  {
    assert '#' in "/?#@" && '#' in "?#";
    assert '#' !in "://" && '#' !in "/" && '#' !in "?";
  }

  /** Parsing undoes AbsoluteURL, unless the query holds a raw '#', which the parser takes for a fragment. */
  lemma TargetRoundTrip(r: Request)
    requires Addressed(r)
    ensures ParseTarget(AbsoluteURL(r)) == Some(Target(r.url.scheme, r.host, RequestURI(r.url)))
       <==> '#' !in r.url.query
  {
    var text := AbsoluteURL(r);
    HashOnlyInQuery(r);
    var path, query := SplitRequestURI(r.url);
    var rest := r.host + (path + query);
    assert text == r.url.scheme + "://" + rest;
    assert '?' in "?#" && ':' !in r.url.scheme;
    hide ParseTarget, AbsoluteURL;
    if '#' !in r.url.query {
      NoHashParses(r.url.scheme, r.host, path, query, text);
    } else {
      HashCutsShort(r.url.scheme, r.host, path + query, text);
    }
  }

  lemma NoHashParses(scheme: string, host: string, path: string, query: string, text: string)
    requires scheme != "" && ':' !in scheme
    requires forall c :: c in host ==> c !in "/?#@"
    requires path != "" && path[0] == '/' && '?' !in path && (query == "" || query[0] == '?')
    requires text == scheme + "://" + (host + (path + query)) && '#' !in text
    ensures ParseTarget(text) == Some(Target(scheme, host, path + query))
  {
    IndexIsLength(text, '#');
    assert text[..|text|] == text;
    SchemeCut(scheme, host + (path + query));
    HostCut(host, path, query);
    hide Index;
    assert "" + (path + query) == path + query;
  }

  lemma HashCutsShort(scheme: string, host: string, uri: string, text: string)
    requires text == scheme + "://" + (host + uri) && '#' in text
    requires uri != "" && uri[0] == '/'
    ensures ParseTarget(text) != Some(Target(scheme, host, uri))
  {
    var t := text[..Index(text, '#')];
    var i := Index(t, ':');
    if i > 0 && "://" <= t[i..] {
      var rest := t[i + 3..];
      var j := Index(rest[..Index(rest, '?')], '/');
      if ParseTarget(text) == Some(Target(scheme, host, uri)) {
        // Only a slash put in by the parser could make up for the text that was cut off.
        assert false;
      }
    }
  }

  // ---------------------------------------------------------------- the headers survive

  /** The request has no x-tfy-* header of its own. */
  predicate Untagged(h: Header) { forall k :: k in h ==> !("x-tfy-" <= Lower(k)) }

  /** Each configured header that is not x-tfy-* is in the request already, with that very value. */
  ghost predicate Redundant(statics: seq<(string, string)>, h: Header) {
    forall k :: Final(statics, k).Some? && !Skipped(k, Some(OWN_PREFIX)) ==> k in h && h[k] == [Final(statics, k).value]
  }

  predicate NoEmptyField(h: Header) { forall k :: k in h ==> h[k] != [] }

  lemma OwnNamesSkipped(name: string)
    requires name == HEADER_ORIG || name == HEADER_TOKEN || name == HEADER_CTX
    ensures Skipped(Canon(name), Some(OWN_PREFIX))
  {
    CanonLower(name);
  }

  /** The three added headers never reach the provider. */
  lemma AddedHeadersStripped(s: Settings, r: Request, token: string, ctx: string)
    requires s.DefaultNames()
    ensures Copied(GatewayHeader(s, r, token, ctx), Some(OWN_PREFIX))
         == Copied(WithStatics(r.header, s.statics), Some(OWN_PREFIX))
  {
    OwnNamesSkipped(HEADER_ORIG);
    OwnNamesSkipped(HEADER_TOKEN);
    OwnNamesSkipped(HEADER_CTX);
    var w := WithStatics(r.header, s.statics);
    var h := Set(w, HEADER_ORIG, AbsoluteURL(r));
    SetStripped(w, HEADER_ORIG, AbsoluteURL(r));
    SetStripped(h, HEADER_TOKEN, token);
    SetStripped(if token != "" then Set(h, HEADER_TOKEN, token) else h, HEADER_CTX, ctx);
    hide Skipped, Canon, WithStatics, AbsoluteURL, Copied, Set;
  }

  lemma SetStripped(h: Header, name: string, v: string)
    requires Skipped(Canon(name), Some(OWN_PREFIX))
    ensures Copied(Set(h, name, v), Some(OWN_PREFIX)) == Copied(h, Some(OWN_PREFIX))
  {
    hide Skipped, Canon;
  }

  lemma UntaggedIsUnskipped(h: Header)
    ensures Untagged(h) <==> forall k :: k in h ==> !Skipped(k, Some(OWN_PREFIX))
  {
    assert forall k :: k in h ==> (Skipped(k, Some(OWN_PREFIX)) <==> "x-tfy-" <= Lower(k));
  }

  lemma StaticsStripped(h: Header, statics: seq<(string, string)>)
    requires NoEmptyField(h)
    ensures Copied(WithStatics(h, statics), Some(OWN_PREFIX)) == h <==> Untagged(h) && Redundant(statics, h)
  {
    UntaggedIsUnskipped(h);
    hide Skipped, WithStatics, Final, Untagged;
    var w := WithStatics(h, statics);
    var c := Copied(w, Some(OWN_PREFIX));
    forall k ensures k in c <==> (k in h || Final(statics, k).Some?) && !Skipped(k, Some(OWN_PREFIX))
      ensures k in c ==> c[k] == if Final(statics, k).Some? then [Final(statics, k).value] else h[k]
    {
      StaticsAt(h, statics, k);
    }
    if c == h {
      forall k | Final(statics, k).Some? && !Skipped(k, Some(OWN_PREFIX))
        ensures k in h && h[k] == [Final(statics, k).value]
      {
        assert k in c;
      }
      forall k | k in h ensures !Skipped(k, Some(OWN_PREFIX)) { assert k in c; }
    }
    if Untagged(h) && Redundant(statics, h) {
      forall k ensures k in c <==> k in h {}
    }
  }

  // ---------------------------------------------------------------- transparency

  /** What reaches the provider when `r` is not rerouted. */
  function SentDirectly(r: Request, body: Bytes): Answer {
    Forward(r.verb, Target(r.url.scheme, r.host, RequestURI(r.url)), r.header, body)
  }

  /** Reroute transparency: through the gateway or not, the provider gets the same method, absolute URL,
      headers and body, whatever the gateway's own URL, exactly when the request carries no x-tfy-* header, no
      other configured header changes it, and its query holds no raw '#'. */
  lemma RerouteTransparent(s: Settings, r: Request, body: Bytes, token: string, ctx: string, requireAuth: bool)
    requires s.gateway.Some? && s.DefaultNames()
    requires Addressed(r) && NoEmptyField(r.header)
    requires requireAuth ==> token != ""
    ensures Handled(Rewritten(s, r, token, ctx), body, requireAuth) == SentDirectly(r, body)
       <==> Untagged(r.header) && Redundant(s.statics, r.header) && '#' !in r.url.query
  {
    IdentityHeadersWin(s, r, token, ctx);
    TargetRoundTrip(r);
    AddedHeadersStripped(s, r, token, ctx);
    StaticsStripped(r.header, s.statics);
    assert AbsoluteURL(r) != "";
    hide AbsoluteURL, ParseTarget, RequestURI, Copied, WithStatics, Untagged, Redundant, Get, GatewayHeader;
  }
}

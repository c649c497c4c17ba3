/** Serving one request (internal/proxy/forward.go, and Reload in internal/proxy/proxy.go). */
module Forward {
  import opened Body
  import opened Capture
  import opened Circuit
  import opened Common
  import opened Config
  import opened Fate
  import opened Headers
  import opened Http
  import opened Pipeline
  import opened Router
  import Classifier
  import HostMatch

  // ---------------------------------------------------------------- the outside world

  datatype Response = Response(status: int, header: Header, body: Bytes)

  /** How a RoundTrip will go: the bytes it takes off the body, then a response or an error. */
  datatype Answer = Answer(taken: nat, response: Option<Response>) {
    predicate Canonical() { response.Some? ==> CanonicalKeys(response.value.header) }
  }

  /** Whom a request is attributed to, and how its body is read as JSON. */
  datatype Who = Who(app: string, pid: int, parse: Bytes -> Option<Classifier.JsonObject>) {
    predicate Valid() { parse([]) == None }
  }

  /** What serving depends on besides the request: attribution, the token and context text, the clock at
      the two breaker calls, and the two remote ends. */
  datatype Env = Env(
    who: Who, token: string, ctx: string, now: int, failedAt: int, gateway: Answer, upstream: Answer)
  {
    predicate Valid() { gateway.Canonical() && upstream.Canonical() && who.Valid() }
  }

  /** A RoundTrip as the remote end sees it: the request, and all the body bytes on offer. */
  datatype Call = Call(request: Request, offered: Bytes, length: int)

  class Transport {
    ghost var calls: seq<Call>

    constructor ()
      ensures calls == []
    {
      calls := [];
    }

    method RoundTrip(m: Message, a: Answer) returns (res: Option<Response>)
      modifies this, m.body, m.Connection()
      ensures calls == old(calls) + [Call(old(m.Value()), old(m.Contents()), m.length)]
      ensures res == a.response
    {
      calls := calls + [Call(m.Value(), m.Contents(), m.length)];
      if m.body != null { var _ := m.body.Read(a.taken); }
      return a.response;
    }
  }

  /** The client's side of the connection; it takes `room` body bytes and then hangs up. */
  class Writer {
    const header: HeaderMap
    var status: Option<int>
    var error: string
    var body: Bytes
    const room: Option<nat>

    /** Nothing has been answered yet. */
    ghost predicate Idle()
      reads this, header
    {
      status == None && error == "" && body == [] && header.m == map[]
    }

    constructor (room: Option<nat>)
      ensures Idle() && this.room == room && fresh(header)
    {
      header := new HeaderMap(map[]);
      status, error, body := None, "", [];
      this.room := room;
    }

    /** A second call would be an error of the handler. */
    method WriteHeader(code: int)
      requires status == None
      modifies `status
      ensures status == Some(code)
    {
      status := Some(code);
    }

    method Write(chunk: Bytes) returns (n: nat, ok: bool)
      requires status.Some? && (room.Some? ==> |body| <= room.value)
      modifies `body
      ensures n <= |chunk| && (ok <==> n == |chunk|)
      ensures body == old(body) + chunk[..n]
      ensures room.Some? ==> |body| <= room.value && (!ok ==> |body| == room.value)
      ensures room == None ==> ok
    {
      n := if room.Some? && room.value - |body| < |chunk| then room.value - |body| else |chunk|;
      body := body + chunk[..n];
      ok := n == |chunk|;
    }

    /** http.Error. */
    method Fail(message: string, code: int)
      requires status == None
      modifies `status, `error
      ensures status == Some(code) && error == message
    {
      WriteHeader(code);
      error := message;
    }
  }

  // ---------------------------------------------------------------- the outcome of a request

  class Outcome {
    var status: int
    var bytes: nat
    var rerouted: bool
    var gatewayGap: bool
    var error: string

    constructor ()
      ensures status == 0 && bytes == 0 && !rerouted && !gatewayGap && error == ""
    {
      status, bytes, rerouted, gatewayGap, error := 0, 0, false, false, "";
    }
  }

  const BLOCKED := "aitori: blocked by policy"
  const FAILED_CLOSED := "aitori: gateway unavailable (fail_closed)"
  const NOT_REPLAYABLE := "aitori: gateway unavailable and request not replayable"
  const UPSTREAM_ERROR := "aitori: upstream error"

  /** As much of a body as the client takes. */
  function Delivered(body: Bytes, room: Option<nat>): Bytes {
    if room.Some? && room.value < |body| then body[..room.value] else body
  }

  /** `res` went to the client, hop-by-hop headers apart, as far as the client would take it. */
  ghost predicate Relayed(w: Writer, res: Response)
    reads w, w.header
  {
    && w.status == Some(res.status)
    && w.error == ""
    && w.header.m == Copied(Stripped(res.header), None)
    && w.body == Delivered(res.body, w.room)
  }

  ghost predicate Refused(w: Writer, code: int, message: string)
    reads w
  {
    w.status == Some(code) && w.error == message && w.body == []
  }

  /** The outcome says what the client got. */
  ghost predicate Mirrored(w: Writer, oc: Outcome)
    reads w, oc
  {
    w.status == Some(oc.status) && w.error == oc.error && |w.body| == oc.bytes
  }

  const CHUNK := 32 * 1024

  /** copyResponse. */
  method CopyResponse(w: Writer, res: Response, oc: Outcome)
    requires w.Idle() && oc.bytes == 0 && oc.error == "" && CanonicalKeys(res.header)
    modifies w, w.header, oc`status, oc`bytes
    ensures Relayed(w, res) && Mirrored(w, oc)
  {
    var header := new HeaderMap(res.header);
    header.RemoveHopByHop();
    w.header.CopyFields(header.m, None);
    w.WriteHeader(res.status);
    oc.status := res.status;
    StreamBody(w, res.body, oc);
  }

  /** Chunk by chunk, until the body ends or the client hangs up. */
  method StreamBody(w: Writer, content: Bytes, oc: Outcome)
    requires w.status.Some? && w.body == [] && oc.bytes == 0
    modifies w`body, oc`bytes
    ensures w.body == Delivered(content, w.room) && oc.bytes == |w.body|
  {
    var body := new Stream(content, null);
    while true
      invariant body.source == null && w.body + body.head == content
      invariant oc.bytes == |w.body| && (w.room.Some? ==> |w.body| <= w.room.value)
      decreases |body.head|
    {
      ghost var written, left := w.body, body.head;
      var chunk := body.Read(CHUNK);
      if chunk == [] { break; }
      assert body.Unread() == body.head + [] && chunk + body.head == left + [];
      var n, ok := w.Write(chunk);
      oc.bytes := oc.bytes + n;
      assert written + left == content;
      if !ok {
        HungUp(written, chunk, n, body.head, content, w.room);
        return;
      }
      assert chunk[..n] == chunk;
      assert (written + chunk) + body.head == written + (chunk + body.head);
    }
    assert body.Unread() == [];
  }

  lemma HungUp(written: Bytes, chunk: Bytes, n: nat, rest: Bytes, content: Bytes, room: Option<nat>)
    requires written + (chunk + rest) == content && n < |chunk|
    requires room.Some? && |written + chunk[..n]| == room.value
    ensures written + chunk[..n] == Delivered(content, room)
  {}

  // ---------------------------------------------------------------- requests sent on

  /** newOutgoing's request: the same one aimed at scheme://host, without its hop-by-hop headers. */
  function Direct(r: Request, scheme: string, host: string): Request {
    Request(r.verb, host, r.url.(scheme := scheme, host := host), Stripped(r.header))
  }

  method NewOutgoing(r: Message, scheme: string, host: string, body: Stream?, length: int) returns (out: Message)
    ensures fresh(out) && fresh(out.header)
    ensures out.Value() == Direct(r.Value(), scheme, host) && out.body == body && out.length == length
  {
    out := new Message(Request(r.verb, r.host, r.url, r.header.m), body, length);
    out.url := out.url.(scheme := scheme, host := host);
    out.host := host;
    out.header.RemoveHopByHop();
  }

  /** A body as it arrives: nothing buffered, all of it on the connection. */
  ghost predicate Live(r: Message)
    reads r`body, r.body, r.Connection()
  {
    r.body != null ==> r.body.head == [] && r.body.source != null
  }

  /** drainBody: buffer the body if it fits `limit`; otherwise put the bytes already read back in front
      of the rest. Either way the request still holds exactly what the client sent. */
  method DrainBody(r: Message, limit: int) returns (buf: Bytes, full: bool)
    requires Live(r)
    modifies r`body, r.body, r.Connection()
    ensures r.Contents() == old(r.Contents())
    ensures full <==> old(r.body) == null || (limit > 0 && |old(r.Contents())| <= limit)
    ensures buf == if full then old(r.Contents()) else []
    ensures r.body == null <==> old(r.body) == null
    ensures r.body == old(r.body) || fresh(r.body)
    ensures r.Connection() == old(r.Connection()) || r.Connection() == null
  {
    if r.body == null { return [], true; }
    if limit <= 0 { return [], false; }
    var source := r.body.source;
    var prefix := source.ReadUpTo(limit + 1);
    if |prefix| <= limit {
      r.body := new Stream(prefix, null);
      return prefix, true;
    }
    r.body := new Stream(prefix, source);
    return [], false;
  }

  /** newBody: a fresh reader over the buffered bytes, or the one stream there is. */
  method NewBody(r: Message, buf: Bytes, full: bool) returns (b: Stream?)
    requires full ==> buf == r.Contents()
    ensures Held(b) == r.Contents()
    ensures if full then b == null || (fresh(b) && b.source == null) else b == r.body
  {
    if full {
      if buf == [] { return null; }
      b := new Stream(buf, null);
    } else {
      b := r.body;
    }
  }

  // ---------------------------------------------------------------- the decision

  /** The bytes the classifier gets to see if the body is drained first. */
  function Seen(body: Bytes, limit: int): Bytes { if limit > 0 && |body| <= limit then body else [] }

  /** One generation of the hot-reloadable state. */
  datatype Reloadable = Reloadable(router: Router, rules: seq<Rule>, maxBody: int)

  /** The decision of a proxy that always drains first. */
  function EagerDecision(rules: seq<Rule>, r: Request, who: Who, body: Bytes, limit: int): Decision {
    Decide(rules, r, who.app, who.pid, who.parse(Seen(body, limit)))
  }

  /** Whether a failed gateway attempt can be repeated upstream. */
  predicate Replayable(rules: seq<Rule>, r: Request, who: Who, bodiless: bool, body: Bytes, limit: int) {
    && !SettledWithoutBody(rules, Decide(rules, r, who.app, who.pid, None))
    && (bodiless || (limit > 0 && |body| <= limit))
  }

  /** A request streams unbuffered when some rule passes it through and no rule looks at bodies; any other
      can be repeated if it has no body or one within the limit. */
  lemma ReplayableIff(rules: seq<Rule>, r: Request, who: Who, bodiless: bool, body: Bytes, limit: int)
    ensures Replayable(rules, r, who, bodiless, body, limit) <==>
      && ((exists i :: 0 <= i < |rules| && rules[i].matchBody != map[])
          || Classifier.NoMatch(rules, r, None)
          || Decide(rules, r, who.app, who.pid, None).action != Passthrough)
      && (bodiless || 0 < |body| <= limit || (|body| == 0 && limit > 0))
  {
    Classifier.MatchedIff(rules, r, None);
    hide Classifier.Classify, Classifier.NoMatch, IsWebSocketUpgrade;
  }

  /** The two-phase decision: drain only when the body can change the verdict, or may have to be sent twice. */
  method Choose(r: Message, rules: seq<Rule>, limit: int, who: Who) returns (dec: Decision, buf: Bytes, full: bool)
    requires Live(r) && who.Valid()
    modifies r`body, r.body, r.Connection()
    ensures dec == EagerDecision(rules, old(r.Value()), who, old(r.Contents()), limit)
    ensures full <==> Replayable(rules, old(r.Value()), who, old(r.body) == null, old(r.Contents()), limit)
    ensures full ==> buf == r.Contents()
    ensures r.Contents() == old(r.Contents())
    ensures SettledWithoutBody(rules, Decide(rules, old(r.Value()), who.app, who.pid, None)) ==> r.body == old(r.body)
    ensures r.body == old(r.body) || fresh(r.body)
    ensures r.Connection() == old(r.Connection()) || r.Connection() == null
  {
    buf, full := [], false;
    if Classifier.BodyMatters(rules) {
      buf, full := DrainBody(r, limit);
      dec := Decide(rules, Request(r.verb, r.host, r.url, r.header.m), who.app, who.pid, who.parse(buf));
    } else {
      var req := Request(r.verb, r.host, r.url, r.header.m);
      dec := Decide(rules, req, who.app, who.pid, None);
      if !(dec.matched && dec.action == Passthrough) {
        buf, full := DrainBody(r, limit);
        dec := Decide(rules, req, who.app, who.pid, who.parse(buf));
      } else {
        LazyDecisionIsFinal(rules, req, who.app, who.pid, who.parse(Seen(r.Contents(), limit)));
      }
    }
  }

  // ---------------------------------------------------------------- serving

  /** The request reached the gateway. */
  predicate Attempted(f: Fate) { !f.Blocked? && (f.Forwarded? ==> f.gap) }

  /** What the gateway and the upstream are sent. */
  ghost function CallsOf(f: Fate, s: Settings, direct: Request, env: Env, body: Bytes, length: int): seq<Call>
    requires Attempted(f) ==> s.gateway.Some?
  {
    (if Attempted(f) then [Call(Rewritten(s, direct, env.token, env.ctx), body, length)] else [])
    + if f.Forwarded? then [Call(direct, body, length)] else []
  }

  /** The single-use stream is given away at most once: two RoundTrips happen only when the body was
      buffered, and only because the gateway failed in fail-open mode. Declining a reroute costs nothing. */
  lemma StreamUsedOnce(action: Action, admitted: bool, gatewayOk: bool, failClosed: bool, replayable: bool,
                       s: Settings, direct: Request, env: Env, body: Bytes, length: int)
    requires admitted ==> s.gateway.Some?
    ensures var f := FateOf(action, admitted, gatewayOk, failClosed, replayable);
            var calls := CallsOf(f, s, direct, env, body, length);
            && (|calls| > 1 <==> action == Reroute && admitted && !gatewayOk && !failClosed && replayable)
            && |calls| <= 2
            && (forall i :: 0 <= i < |calls| ==> calls[i].offered == body && calls[i].length == length)
            && (!admitted && action != Block ==> calls == [Call(direct, body, length)])
  {}

  /** What the upstream is sent for the client's request `r`: the same method, path and query, at the host
      that `r` names, with every header that is not hop-by-hop and no other. */
  ghost predicate UpstreamSent(c: Request, r: Request, mitm: bool) {
    && c.verb == r.verb && SamePath(c.url, r.url) && c.url.query == r.url.query && c.url.bare == r.url.bare
    && c.url.scheme == (if mitm then "https" else if r.url.scheme != "" then r.url.scheme else "http")
    && c.host == c.url.host == (if r.host != "" then r.host else r.url.host)
    && forall k :: HeaderKept(c.header, r.header, k)
  }

  predicate SamePath(u: Url, v: Url) { u.path == v.path && u.escaped == v.escaped }

  /** Header `k` arrives unchanged, unless it is hop-by-hop, and then it does not arrive. */
  ghost predicate HeaderKept(sent: Header, own: Header, k: string) {
    && (k in sent <==> k in own && !HopByHop(own, k))
    && (k in sent ==> sent[k] == own[k])
  }

  /** And what the gateway is sent: the same, but for the address, and for the headers that are added. */
  ghost predicate GatewaySent(c: Request, s: Settings, r: Request, mitm: bool) {
    && s.gateway.Some?
    && var g := s.gateway.value;
       && c.verb == r.verb && c.url.bare == r.url.bare
       && c.url.scheme == g.scheme && c.host == c.url.host == g.host
       && SamePath(c.url, if g.path == "" || g.path == "/" then r.url else g)
       && c.url.query == (if g.query == "" then r.url.query
                          else if r.url.query == "" then g.query else g.query + "&" + r.url.query)
       && forall k :: !Added(s, k) ==> HeaderKept(c.header, r.header, k)
  }

  predicate Added(s: Settings, k: string) {
    Final(s.statics, k).Some? || k == Canon(s.headerOrig) || k == Canon(s.headerToken) || k == Canon(s.headerCtx)
  }

  /** All RoundTrips of a request: the gateway's first, the upstream's last, each with the whole body. */
  ghost predicate AllSent(calls: seq<Call>, f: Fate, s: Settings, r: Request, mitm: bool, body: Bytes) {
    && |calls| == (if Attempted(f) then 1 else 0) + (if f.Forwarded? then 1 else 0)
    && (Attempted(f) ==> GatewaySent(calls[0].request, s, r, mitm))
    && (f.Forwarded? ==> UpstreamSent(calls[|calls| - 1].request, r, mitm))
    && forall i :: 0 <= i < |calls| ==> calls[i].offered == body
  }

  lemma DirectIsUpstream(r: Request, mitm: bool)
    ensures UpstreamSent(DirectOf(r, mitm), r, mitm)
  {
    hide HopByHop, Stripped;
    forall k ensures HeaderKept(Stripped(r.header), r.header, k) { StrippedIff(r.header, k); }
  }

  lemma RewrittenIsGateway(s: Settings, r: Request, mitm: bool, token: string, ctx: string)
    requires s.gateway.Some?
    ensures GatewaySent(Rewritten(s, DirectOf(r, mitm), token, ctx), s, r, mitm)
  {
    DirectIsUpstream(r, mitm);
    var direct := DirectOf(r, mitm);
    RewrittenTarget(s, direct, token, ctx);
    hide HopByHop, DirectOf, Rewritten, Canon, Final;
    forall k | !Added(s, k) ensures HeaderKept(Rewritten(s, direct, token, ctx).header, r.header, k) {
      assert HeaderKept(direct.header, r.header, k);
      RewriteIsAdditive(s, direct, token, ctx, k);
    }
  }

  lemma WhatIsSent(f: Fate, s: Settings, r: Request, mitm: bool, env: Env, body: Bytes, length: int)
    requires Attempted(f) ==> s.gateway.Some?
    ensures AllSent(CallsOf(f, s, DirectOf(r, mitm), env, body, length), f, s, r, mitm, body)
  {
    DirectIsUpstream(r, mitm);
    if Attempted(f) { RewrittenIsGateway(s, r, mitm, env.token, env.ctx); }
    hide UpstreamSent, GatewaySent, DirectOf, Rewritten;
  }

  /** What the breaker is told. */
  ghost function NotesOf(f: Fate, env: Env): seq<Event> {
    if !Attempted(f) then [] else [if f.Governed? then Succeeded else Failed(env.failedAt)]
  }

  /** The breaker hears of every gateway attempt, once, and of nothing else. */
  lemma NotesSpelled(action: Action, admitted: bool, failClosed: bool, replayable: bool, env: Env)
    ensures var f := FateOf(action, admitted, env.gateway.response.Some?, failClosed, replayable);
            && (Attempted(f) <==> action == Reroute && admitted)
            && NotesOf(f, env) == if !(action == Reroute && admitted) then []
                                  else if env.gateway.response.Some? then [Succeeded] else [Failed(env.failedAt)]
  {}

  /** What the client gets. */
  ghost predicate Answered(w: Writer, f: Fate, env: Env)
    reads w, w.header
  {
    match f
    case Blocked => Refused(w, 403, BLOCKED)
    case Governed => env.gateway.response.Some? && Relayed(w, env.gateway.response.value)
    case FailedClosed => Refused(w, 502, FAILED_CLOSED)
    case NotReplayable => Refused(w, 502, NOT_REPLAYABLE)
    case Forwarded(_) =>
      match env.upstream.response
      case Some(res) => Relayed(w, res)
      case None => Refused(w, 502, UPSTREAM_ERROR)
  }

  /** The answer a client gets, spelled out: the blocked and the failed ones with their status and text, a
      response with its status, with the headers that have a value and are not hop-by-hop, and with its
      body as far as the client takes it. */
  lemma AnswerSpelled(w: Writer, f: Fate, env: Env)
    requires Answered(w, f, env)
    ensures f.Blocked? ==> w.status == Some(403) && w.error == "aitori: blocked by policy" && w.body == []
    ensures f.FailedClosed? ==>
              w.status == Some(502) && w.error == "aitori: gateway unavailable (fail_closed)" && w.body == []
    ensures f.NotReplayable? ==>
              && w.status == Some(502) && w.body == []
              && w.error == "aitori: gateway unavailable and request not replayable"
    ensures f.Forwarded? && env.upstream.response == None ==>
              w.status == Some(502) && w.error == "aitori: upstream error" && w.body == []
    ensures f.Forwarded? && env.upstream.response.Some? ==> Passed(w, env.upstream.response.value)
    ensures f.Governed? ==> env.gateway.response.Some? && Passed(w, env.gateway.response.value)
  {
    if f.Forwarded? && env.upstream.response.Some? {
      RelayedIsPassed(w, env.upstream.response.value);
    } else if f.Governed? {
      RelayedIsPassed(w, env.gateway.response.value);
    }
    hide Relayed, Passed;
  }

  ghost predicate Passed(w: Writer, res: Response)
    reads w, w.header
  {
    && w.status == Some(res.status) && w.error == ""
    && (forall k :: k in w.header.m <==> k in res.header && res.header[k] != [] && !HopByHop(res.header, k))
    && (forall k :: k in w.header.m ==> w.header.m[k] == res.header[k])
    && (w.room == None || |res.body| <= w.room.value ==> w.body == res.body)
    && (w.room.Some? && w.room.value < |res.body| ==> |w.body| == w.room.value && w.body <= res.body)
  }

  lemma RelayedIsPassed(w: Writer, res: Response)
    requires Relayed(w, res)
    ensures Passed(w, res)
  {
    hide HopByHop, Stripped;
    forall k ensures k in Stripped(res.header) <==> k in res.header && !HopByHop(res.header, k)
      ensures k in Stripped(res.header) ==> Stripped(res.header)[k] == res.header[k]
    {
      StrippedIff(res.header, k);
    }
  }

  function SchemeOf(r: Request, mitm: bool): string {
    if mitm then "https" else if r.url.scheme == "" then "http" else r.url.scheme
  }

  function HostOf(r: Request): string { if r.host == "" then r.url.host else r.host }

  function DirectOf(r: Request, mitm: bool): Request { Direct(r, SchemeOf(r, mitm), HostOf(r)) }

  /** What becomes of a request that is served with these rules, body limit and router settings; `open`
      is what the breaker says. */
  function ServedFate(rules: seq<Rule>, limit: int, s: Settings, r: Request, mitm: bool, bodiless: bool, body: Bytes,
                      env: Env, open: bool): Fate {
    FateOf(EagerDecision(rules, r, env.who, body, limit).action,
           Admits(s, DirectOf(r, mitm), env.token, open),
           env.gateway.response.Some?, s.failClosed,
           Replayable(rules, r, env.who, bodiless, body, limit))
  }

  /** The exchange `x` says what was decided and what the client got. */
  ghost predicate Recorded(w: Writer, r: Request, mitm: bool, dec: Decision, f: Fate, x: Exchange)
    reads w
  {
    && x.app == dec.app && x.category == dec.category && x.action == dec.action
    && x.verb == r.verb && x.scheme == SchemeOf(r, mitm) && x.host == HostMatch.Normalize(HostOf(r))
    && x.path == r.url.path && x.query == r.url.query
    && (x.rerouted <==> f.Governed?)
    && (x.gap <==> Attempted(f) && !f.Governed?)
    && w.status == Some(x.status) && w.error == x.error && |w.body| == x.bytes
  }

  class Proxy {
    var live: Reloadable
    const transport: Transport
    var recorded: seq<Exchange>
    ghost var trace: seq<Step>

    constructor (live: Reloadable, transport: Transport)
      ensures this.live == live && this.transport == transport && recorded == [] && trace == []
    {
      this.live, this.transport := live, transport;
      recorded, trace := [], [];
    }

    /** A hot reload swaps the generation; requests being served keep the one they loaded. */
    method Reload(next: Reloadable)
      modifies `live
      ensures live == next
    {
      live := next;
    }

    method ForwardUpstream(w: Writer, m: Message, oc: Outcome, env: Env)
      requires w.Idle() && oc.bytes == 0 && oc.error == "" && env.Valid() && w.header != m.header
      modifies transport, m.body, m.Connection(), w, w.header, oc`status, oc`bytes, oc`error, `trace
      ensures transport.calls == old(transport.calls) + [Call(old(m.Value()), old(m.Contents()), m.length)]
      ensures Mirrored(w, oc) && forall gap :: Answered(w, Forwarded(gap), env)
      ensures trace == old(trace) + [Upstream, Replied(ReplyOf(Forwarded(false), env.upstream.response.Some?))]
    {
      var res := transport.RoundTrip(m, env.upstream);
      trace := trace + [Upstream, Replied(ReplyOf(Forwarded(false), res.Some?))];
      if res == None {
        WriteError(w, oc, UPSTREAM_ERROR);
      } else {
        CopyResponse(w, res.value, oc);
      }
    }

    method WriteError(w: Writer, oc: Outcome, message: string)
      requires w.Idle() && oc.bytes == 0
      modifies w`status, w`error, oc`status, oc`error
      ensures Refused(w, 502, message) && Mirrored(w, oc)
    {
      oc.status := 502;
      oc.error := message;
      w.Fail(message, 502);
    }

    /** The reroute attempt: None when Rewrite declines. */
    method TryGateway(m: Message, rl: Reloadable, env: Env) returns (tried: bool, res: Option<Response>)
      requires rl.router.breaker.Valid()
      modifies transport, m`host, m`url, m.header, m.body, m.Connection(), rl.router.breaker, `trace
      ensures rl.router.breaker.Valid()
      ensures tried <==> Admits(rl.router.settings, old(m.Value()), env.token, old(rl.router.breaker.OpenAt(env.now)))
      ensures !tried ==> transport.calls == old(transport.calls) && trace == old(trace)
                         && rl.router.breaker.history == old(rl.router.breaker.history)
                         && m.Contents() == old(m.Contents())
      ensures tried ==>
                && transport.calls == old(transport.calls)
                     + [Call(Rewritten(rl.router.settings, old(m.Value()), env.token, env.ctx), old(m.Contents()), m.length)]
                && res == env.gateway.response
                && rl.router.breaker.history
                     == old(rl.router.breaker.history) + [if res.Some? then Succeeded else Failed(env.failedAt)]
                && trace == old(trace) + [Gateway, Noted(res.Some?)]
    {
      res := None;
      tried := rl.router.Rewrite(m, env.token, env.ctx, env.now);
      if !tried { return; }
      res := transport.RoundTrip(m, env.gateway);
      trace := trace + [Gateway, Noted(res.Some?)];
      if res.Some? {
        rl.router.NoteGatewaySuccess();
      } else {
        rl.router.NoteGatewayFailure(env.failedAt);
      }
    }

    /** A clone of `r` with the body it has left, sent upstream. */
    method SendUpstream(w: Writer, r: Message, scheme: string, host: string, buf: Bytes, full: bool, length: int,
                        oc: Outcome, env: Env)
      requires w.Idle() && oc.bytes == 0 && oc.error == "" && env.Valid() && w.header != r.header
      requires full ==> buf == r.Contents()
      modifies transport, r.body, r.Connection(), w, w.header, oc`status, oc`bytes, oc`error, `trace
      ensures transport.calls
           == old(transport.calls) + [Call(Direct(r.Value(), scheme, host), old(r.Contents()), length)]
      ensures Mirrored(w, oc) && forall gap :: Answered(w, Forwarded(gap), env)
      ensures trace == old(trace) + [Upstream, Replied(ReplyOf(Forwarded(false), env.upstream.response.Some?))]
    {
      hide Direct, Answered, ReplyOf;
      var body := NewBody(r, buf, full);
      var up := NewOutgoing(r, scheme, host, body, length);
      ForwardUpstream(w, up, oc, env);
    }

    /** A clone of `r`, offered to the gateway. Unless that used up the one stream there is, `r` still
        holds its body. */
    method OfferToGateway(r: Message, rl: Reloadable, scheme: string, host: string, buf: Bytes, full: bool, length: int,
                          env: Env)
        returns (tried: bool, res: Option<Response>)
      requires rl.router.breaker.Valid()
      requires full ==> buf == r.Contents()
      modifies transport, r.body, r.Connection(), rl.router.breaker, `trace
      ensures rl.router.breaker.Valid()
      ensures full || !tried ==> r.Contents() == old(r.Contents())
      ensures tried <==> Admits(rl.router.settings, Direct(r.Value(), scheme, host), env.token,
                                old(rl.router.breaker.OpenAt(env.now)))
      ensures !tried ==> transport.calls == old(transport.calls) && trace == old(trace)
                         && rl.router.breaker.history == old(rl.router.breaker.history)
      ensures tried ==>
                && rl.router.settings.gateway.Some?
                && transport.calls == old(transport.calls)
                     + [Call(Rewritten(rl.router.settings, Direct(r.Value(), scheme, host), env.token, env.ctx),
                             old(r.Contents()), length)]
                && res == env.gateway.response
                && rl.router.breaker.history
                     == old(rl.router.breaker.history) + [if res.Some? then Succeeded else Failed(env.failedAt)]
                && trace == old(trace) + [Gateway, Noted(res.Some?)]
    {
      hide Direct, Rewritten, SaysOpen, Breaker.Valid;
      var body := NewBody(r, buf, full);
      var gw := NewOutgoing(r, scheme, host, body, length);
      tried, res := TryGateway(gw, rl, env);
    }

    /** After a failed gateway attempt. */
    method FailOpenOrClosed(w: Writer, r: Message, rl: Reloadable, scheme: string, host: string,
                            buf: Bytes, full: bool, length: int, oc: Outcome, env: Env)
        returns (ghost fate: Fate)
      requires w.Idle() && oc.bytes == 0 && oc.error == "" && env.Valid() && w.header != r.header
      requires full ==> buf == r.Contents()
      modifies transport, r.body, r.Connection(), w, w.header, oc`status, oc`bytes, oc`error, `trace
      ensures fate == FateOf(Reroute, true, false, rl.router.settings.failClosed, full)
      ensures transport.calls
           == old(transport.calls)
              + if fate.Forwarded? then [Call(Direct(r.Value(), scheme, host), old(r.Contents()), length)] else []
      ensures trace == old(trace) + Rest(fate, env.upstream.response.Some?)
      ensures Answered(w, fate, env) && Mirrored(w, oc)
    {
      hide Direct, Relayed;
      if rl.router.settings.failClosed {
        trace := trace + [Replied(GatewayUnavailable)];
        WriteError(w, oc, FAILED_CLOSED);
        return FailedClosed;
      }
      if !full {
        trace := trace + [Replied(GatewayUnavailable)];
        WriteError(w, oc, NOT_REPLAYABLE);
        return NotReplayable;
      }
      SendUpstream(w, r, scheme, host, buf, full, length, oc, env);
      return Forwarded(true);
    }

    /** The reroute attempt with its fail-open and fail-closed ends; not `done` when Rewrite declines. */
    method RerouteOrDecline(w: Writer, r: Message, rl: Reloadable, scheme: string, host: string,
                            buf: Bytes, full: bool, length: int, oc: Outcome, env: Env)
        returns (done: bool, ghost fate: Fate)
      requires w.Idle() && oc.bytes == 0 && oc.error == "" && !oc.rerouted && !oc.gatewayGap
      requires w.header != r.header && env.Valid() && rl.router.breaker.Valid()
      requires full ==> buf == r.Contents()
      modifies transport, r.body, r.Connection(), rl.router.breaker, w, w.header, oc, `trace
      ensures rl.router.breaker.Valid()
      ensures done <==> Admits(rl.router.settings, Direct(r.Value(), scheme, host), env.token,
                               old(rl.router.breaker.OpenAt(env.now)))
      ensures !done ==>
                && transport.calls == old(transport.calls) && trace == old(trace)
                && rl.router.breaker.history == old(rl.router.breaker.history)
                && r.Contents() == old(r.Contents()) && w.Idle()
                && oc.bytes == 0 && oc.error == "" && !oc.rerouted && !oc.gatewayGap
      ensures done ==>
                && fate == FateOf(Reroute, true, env.gateway.response.Some?, rl.router.settings.failClosed, full)
                && rl.router.settings.gateway.Some?
                && transport.calls == old(transport.calls)
                     + CallsOf(fate, rl.router.settings, Direct(r.Value(), scheme, host), env, old(r.Contents()), length)
                && rl.router.breaker.history == old(rl.router.breaker.history) + NotesOf(fate, env)
                && trace == old(trace) + Trace(fate, env.upstream.response.Some?)
                && Answered(w, fate, env) && Mirrored(w, oc)
                && (oc.rerouted <==> fate.Governed?) && (oc.gatewayGap <==> !fate.Governed?)
    {
      hide Relayed, Direct, Rewritten, Admits, SaysOpen, Breaker.Valid, Breaker.OpenAt, Writer.Idle;
      var res;
      fate := Forwarded(false);
      done, res := OfferToGateway(r, rl, scheme, host, buf, full, length, env);
      if !done { return; }
      if res.Some? {
        oc.rerouted := true;
        trace := trace + [Replied(GatewayReply)];
        CopyResponse(w, res.value, oc);
        return true, Governed;
      }
      oc.gatewayGap := true;
      AfterFailedAttempt(rl.router.settings.failClosed, full, env.upstream.response.Some?, old(trace));
      fate := FailOpenOrClosed(w, r, rl, scheme, host, buf, full, length, oc, env);
    }

    /** Block, reroute, or pass through. */
    method Dispatch(w: Writer, r: Message, rl: Reloadable, scheme: string, host: string, action: Action,
                    buf: Bytes, full: bool, length: int, oc: Outcome, env: Env)
        returns (ghost fate: Fate)
      requires w.Idle() && oc.bytes == 0 && oc.error == "" && !oc.rerouted && !oc.gatewayGap
      requires w.header != r.header && env.Valid() && rl.router.breaker.Valid()
      requires full ==> buf == r.Contents()
      modifies transport, r.body, r.Connection(), rl.router.breaker, w, w.header, oc, `trace
      ensures rl.router.breaker.Valid()
      ensures fate == FateOf(action, Admits(rl.router.settings, Direct(r.Value(), scheme, host), env.token,
                                            old(rl.router.breaker.OpenAt(env.now))),
                             env.gateway.response.Some?, rl.router.settings.failClosed, full)
      ensures Attempted(fate) ==> rl.router.settings.gateway.Some?
      ensures transport.calls == old(transport.calls)
                + CallsOf(fate, rl.router.settings, Direct(r.Value(), scheme, host), env, old(r.Contents()), length)
      ensures rl.router.breaker.history == old(rl.router.breaker.history) + NotesOf(fate, env)
      ensures trace == old(trace) + Trace(fate, env.upstream.response.Some?)
      ensures Answered(w, fate, env) && Mirrored(w, oc)
      ensures (oc.rerouted <==> fate.Governed?) && (oc.gatewayGap <==> Attempted(fate) && !fate.Governed?)
    {
      hide Relayed, Direct, Rewritten, Admits, SaysOpen, Breaker.Valid, Breaker.OpenAt;
      if action == Block {
        trace := trace + [Replied(Forbidden)];
        oc.status := 403;
        oc.error := BLOCKED;
        w.Fail(BLOCKED, 403);
        return Blocked;
      }
      if action == Reroute {
        var done;
        done, fate := RerouteOrDecline(w, r, rl, scheme, host, buf, full, length, oc, env);
        if done { return; }
      }
      SendUpstream(w, r, scheme, host, buf, full, length, oc, env);
      return Forwarded(false);
    }

    /** Decide, then forward, all on the generation `rl`. */
    method Handle(w: Writer, r: Message, rl: Reloadable, mitm: bool, env: Env, oc: Outcome)
        returns (dec: Decision, ghost fate: Fate)
      requires w.Idle() && oc.bytes == 0 && oc.error == "" && !oc.rerouted && !oc.gatewayGap
      requires Live(r) && w.header != r.header && env.Valid() && rl.router.breaker.Valid()
      modifies `trace, transport, r`body, r.body, r.Connection(), rl.router.breaker, w, w.header, oc
      ensures rl.router.breaker.Valid()
      ensures dec == EagerDecision(rl.rules, old(r.Value()), env.who, old(r.Contents()), rl.maxBody)
      ensures fate == ServedFate(rl.rules, rl.maxBody, rl.router.settings, old(r.Value()), mitm, old(r.body) == null,
                                 old(r.Contents()), env, old(rl.router.breaker.OpenAt(env.now)))
      ensures Attempted(fate) ==> rl.router.settings.gateway.Some?
      ensures transport.calls == old(transport.calls)
                + CallsOf(fate, rl.router.settings, DirectOf(old(r.Value()), mitm), env, old(r.Contents()),
                          if Replayable(rl.rules, old(r.Value()), env.who, old(r.body) == null, old(r.Contents()),
                                        rl.maxBody)
                          then |old(r.Contents())| else r.length)
      ensures rl.router.breaker.history == old(rl.router.breaker.history) + NotesOf(fate, env)
      ensures trace == old(trace) + Trace(fate, env.upstream.response.Some?)
      ensures Answered(w, fate, env) && Mirrored(w, oc)
      ensures (oc.rerouted <==> fate.Governed?) && (oc.gatewayGap <==> Attempted(fate) && !fate.Governed?)
    {
      hide SchemeOf, HostOf, Direct, Admits, Breaker.Valid, Breaker.OpenAt, FateOf, CallsOf, NotesOf, Trace, Answered,
           EagerDecision, Replayable, Mirrored, Attempted;
      var req := Request(r.verb, r.host, r.url, r.header.m);
      var buf, full;
      dec, buf, full := Choose(r, rl.rules, rl.maxBody, env.who);
      var length := if full then |buf| else r.length;
      fate := Dispatch(w, r, rl, SchemeOf(req, mitm), HostOf(req), dec.action, buf, full, length, oc, env);
    }

    /** serve: load the generation once, handle the request on it, record the exchange. */
    method Serve(w: Writer, r: Message, mitm: bool, env: Env) returns (dec: Decision, ghost fate: Fate)
      requires Live(r) && w.Idle() && w.header != r.header && env.Valid() && live.router.breaker.Valid()
      modifies `recorded, `trace, transport, r`body, r.body, r.Connection(), live.router.breaker, w, w.header
      ensures live.router.breaker.Valid()
      // The verdict is the one an eager proxy reaches, read or not read.
      ensures dec == EagerDecision(live.rules, old(r.Value()), env.who, old(r.Contents()), live.maxBody)
      ensures fate == ServedFate(live.rules, live.maxBody, live.router.settings, old(r.Value()), mitm, old(r.body) == null,
                                 old(r.Contents()), env, old(live.router.breaker.OpenAt(env.now)))
      // Every RoundTrip is offered exactly the client's bytes, on a clone of the client's request.
      ensures Attempted(fate) ==> live.router.settings.gateway.Some?
      ensures transport.calls == old(transport.calls)
                + CallsOf(fate, live.router.settings, DirectOf(old(r.Value()), mitm), env, old(r.Contents()),
                          if Replayable(live.rules, old(r.Value()), env.who, old(r.body) == null, old(r.Contents()),
                                        live.maxBody)
                          then |old(r.Contents())| else r.length)
      ensures old(transport.calls) <= transport.calls
      ensures AllSent(transport.calls[|old(transport.calls)|..], fate, live.router.settings, old(r.Value()), mitm,
                      old(r.Contents()))
      ensures r.Value() == old(r.Value())
      ensures live.router.breaker.history == old(live.router.breaker.history) + NotesOf(fate, env)
      ensures trace == old(trace) + Trace(fate, env.upstream.response.Some?)
      ensures Answered(w, fate, env)
      ensures |recorded| == |old(recorded)| + 1 && old(recorded) <= recorded
      ensures Recorded(w, old(r.Value()), mitm, dec, fate, recorded[|old(recorded)|])
    {
      hide SchemeOf, HostOf, Direct, Admits, Breaker.Valid, Breaker.OpenAt, FateOf, CallsOf, NotesOf, Trace, Answered,
           EagerDecision, Replayable, ServedFate, Attempted, HostMatch.Normalize, Live, Writer.Idle;
      var req := Request(r.verb, r.host, r.url, r.header.m);
      var oc := new Outcome();
      dec, fate := Handle(w, r, live, mitm, env, oc);
      WhatIsSent(fate, live.router.settings, req, mitm, env, old(r.Contents()),
                 if Replayable(live.rules, req, env.who, old(r.body) == null, old(r.Contents()), live.maxBody)
                 then |old(r.Contents())| else r.length);
      hide AllSent;
      Record(req, SchemeOf(req, mitm), HostOf(req), dec, oc);
    }

    method Record(r: Request, scheme: string, host: string, dec: Decision, oc: Outcome)
      modifies `recorded
      ensures recorded == old(recorded) + [
        Exchange(dec.app, dec.category, dec.action, oc.rerouted, r.verb, scheme, HostMatch.Normalize(host),
                 r.url.path, r.url.query, oc.status, oc.bytes, oc.gatewayGap, oc.error)]
    {
      recorded := recorded + [
        Exchange(dec.app, dec.category, dec.action, oc.rerouted, r.verb, scheme, HostMatch.Normalize(host),
                 r.url.path, r.url.query, oc.status, oc.bytes, oc.gatewayGap, oc.error)];
    }
  }
}

/** The parts together: policy, forwarding, router, reference gateway and loop prevention. */
module EndToEnd {
  import opened Body
  import opened Config
  import opened Fate
  import opened Forward
  import opened Gateway
  import opened Http
  import opened Pipeline
  import opened Router
  import opened Text
  import Classifier
  import HostMatch

  /** Whatever becomes of a request, each RoundTrip made for it brings the provider the same method,
      absolute URL, headers and body, be it through the gateway or directly. */
  lemma EveryLegIsTransparent(f: Fate, s: Settings, direct: Request, env: Env, body: Bytes, length: int, requireAuth: bool)
    requires Attempted(f) ==> s.gateway.Some?
    requires s.DefaultNames() && (requireAuth ==> env.token != "")
    requires Addressed(direct) && NoEmptyField(direct.header)
    requires Untagged(direct.header) && Redundant(s.statics, direct.header) && '#' !in direct.url.query
    ensures var calls := CallsOf(f, s, direct, env, body, length);
            forall i :: 0 <= i < |calls| ==>
              || calls[i] == Call(direct, body, length)
              || Handled(calls[i].request, calls[i].offered, requireAuth) == SentDirectly(direct, body)
  {
    hide Handled, SentDirectly, Rewritten;
    if Attempted(f) { RerouteTransparent(s, direct, body, env.token, env.ctx, requireAuth); }
  }

  /** What is served is the tiered meaning of the policy; only a request for a WebSocket is let through
      instead of being rerouted. */
  lemma ServedDecisionIsTiered(p: Policy, r: Request, who: Who, body: Bytes, limit: int) returns (v: Classifier.Verdict)
    ensures TieredVerdict(p, r, who.parse(Seen(body, limit)), v)
    ensures var d := EagerDecision(EffectiveRules(p), r, who, body, limit);
            && d.app == who.app && d.pid == who.pid && d.category == v.category && d.matched == v.matched
            && (if AsksForWebSocket(r.header) && v.action == Reroute then
                  d.action == Passthrough && d.rule == "websocket-passthrough"
                else d.action == v.action && d.rule == v.rule)
  {
    hide TieredVerdict, Classifier.Classify, EffectiveRules, IsWebSocketUpgrade, AsksForWebSocket;
    CompilationPreservesMeaning(p, r, who.parse(Seen(body, limit)));
    v := Classifier.Classify(EffectiveRules(p), r, who.parse(Seen(body, limit)));
    DecideElse(EffectiveRules(p), r, who.app, who.pid, who.parse(Seen(body, limit)));
  }

  /** Traffic to the gateway itself, however its host is spelled, is never rerouted. */
  lemma GatewayTrafficNotRerouted(s: Settings, gateway: HostMatch.Authority, target: HostMatch.Authority, r: Request,
                                  token: string, open: bool)
    requires s.gateway.Some? && s.gateway.value.host == gateway.HostPort()
    requires gateway.WellFormed() && target.WellFormed() && Lower(target.name) == Lower(gateway.name)
    requires r.host == target.HostPort() || r.url.host == target.HostPort()
    ensures !Admits(s, r, token, open)
  {
    HostMatch.NormalizeAuthority(gateway);
    HostMatch.NormalizeAuthority(target);
  }

  /** fail_closed does not hold back a request that was never tried: one decided to be rerouted still goes
      upstream without an answer from the gateway exactly when Rewrite declines it, an open breaker
      included. */
  lemma FailClosedForwardsDeclined(s: Settings, r: Request, token: string, open: bool, gatewayOk: bool, replayable: bool)
    requires s.failClosed
    ensures FateOf(Reroute, Admits(s, r, token, open), gatewayOk, s.failClosed, replayable).Forwarded?
       <==> !s.gateway.Some? || Loops(s, r) || (token == "" && !s.authDisabled) || open
  {
    hide Loops;
  }
}

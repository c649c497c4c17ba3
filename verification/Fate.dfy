/** What becomes of one decided request (serve in internal/proxy/forward.go), as the sequence of steps
    that the outside world sees of it.
*/
module Fate {
  import opened Config

  datatype Reply = Forbidden | GatewayReply | GatewayUnavailable | UpstreamReply | UpstreamError

  datatype Step =
    | Gateway          // a RoundTrip to the gateway
    | Noted(ok: bool)  // its result, on the breaker
    | Upstream         // a RoundTrip to the original upstream
    | Replied(reply: Reply)

  datatype Fate =
    | Blocked
    | Governed               // the gateway answered
    | FailedClosed           // it did not, and the mode is fail_closed
    | NotReplayable          // it did not, and the body is gone
    | Forwarded(gap: bool)   // straight upstream, or after a failed gateway attempt

  /** `admitted` is what Rewrite returns. Note that fail_closed counts only after a failed attempt: a
      request that Rewrite declines goes upstream in either mode. */
  function FateOf(action: Action, admitted: bool, gatewayOk: bool, failClosed: bool, replayable: bool): Fate {
    if action == Block then Blocked
    else if action != Reroute || !admitted then Forwarded(false)
    else if gatewayOk then Governed
    else if failClosed then FailedClosed
    else if !replayable then NotReplayable
    else Forwarded(true)
  }

  /** The steps before the reply. */
  function Legs(f: Fate): seq<Step> {
    match f
    case Blocked => []
    case Governed => [Gateway, Noted(true)]
    case FailedClosed => [Gateway, Noted(false)]
    case NotReplayable => [Gateway, Noted(false)]
    case Forwarded(gap) => if gap then [Gateway, Noted(false), Upstream] else [Upstream]
  }

  function ReplyOf(f: Fate, upstreamOk: bool): Reply {
    match f
    case Blocked => Forbidden
    case Governed => GatewayReply
    case FailedClosed => GatewayUnavailable
    case NotReplayable => GatewayUnavailable
    case Forwarded(_) => if upstreamOk then UpstreamReply else UpstreamError
  }

  function Trace(f: Fate, upstreamOk: bool): seq<Step> { Legs(f) + [Replied(ReplyOf(f, upstreamOk))] }

  /** The steps after a failed attempt was noted. */
  function Rest(f: Fate, upstreamOk: bool): seq<Step> {
    (if f.Forwarded? then [Upstream] else []) + [Replied(ReplyOf(f, upstreamOk))]
  }

  lemma AfterFailedAttempt(failClosed: bool, replayable: bool, upstreamOk: bool, before: seq<Step>)
    ensures var f := FateOf(Reroute, true, false, failClosed, replayable);
            before + [Gateway, Noted(false)] + Rest(f, upstreamOk) == before + Trace(f, upstreamOk)
  {
    var f := FateOf(Reroute, true, false, failClosed, replayable);
    assert Trace(f, upstreamOk) == [Gateway, Noted(false)] + Rest(f, upstreamOk);
  }

  /** Which steps a request takes, and which answer it gets. */
  lemma StepsSpelled(action: Action, admitted: bool, gatewayOk: bool, failClosed: bool, replayable: bool, upstreamOk: bool)
    ensures var t := Trace(FateOf(action, admitted, gatewayOk, failClosed, replayable), upstreamOk);
            var tried := action == Reroute && admitted;
            var upstream := action != Block && (tried ==> !gatewayOk && !failClosed && replayable);
            && (Gateway in t <==> tried)
            && (forall ok :: Noted(ok) in t <==> tried && ok == gatewayOk)
            && (Upstream in t <==> upstream)
            && (Replied(Forbidden) in t <==> action == Block)
            && (Replied(GatewayReply) in t <==> tried && gatewayOk)
            && (Replied(GatewayUnavailable) in t <==> tried && !gatewayOk && (failClosed || !replayable))
            && (Replied(UpstreamReply) in t <==> upstream && upstreamOk)
            && (Replied(UpstreamError) in t <==> upstream && !upstreamOk)
  {
    var f := FateOf(action, admitted, gatewayOk, failClosed, replayable);
    var t := Trace(f, upstreamOk);
    assert t == Legs(f) + [Replied(ReplyOf(f, upstreamOk))];
    match f
    case Blocked => assert Legs(f) == [];
    case Governed => assert Legs(f) == [Gateway, Noted(true)];
    case FailedClosed => assert Legs(f) == [Gateway, Noted(false)];
    case NotReplayable => assert Legs(f) == [Gateway, Noted(false)];
    case Forwarded(gap) => assert Legs(f) == if gap then [Gateway, Noted(false), Upstream] else [Upstream];
  }
}

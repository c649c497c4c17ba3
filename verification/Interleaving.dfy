/** Many requests at once (serve in internal/proxy/forward.go) over hot reloads (Reload in
    internal/proxy/proxy.go), with one breaker per configuration generation.

    Between the shared operations - loading the generation, asking the breaker, noting a result - requests
    interleave in any order, and so do reloads and the clock.
*/
module Interleaving {
  import opened Body
  import opened Circuit
  import opened Common
  import opened Config
  import opened Fate
  import Forward
  import Http
  import Router

  // ---------------------------------------------------------------- one request

  /** A request as it arrives; no body stands for nil and http.NoBody. */
  datatype Client = Client(request: Http.Request, mitm: bool, body: Option<Bytes>, who: Forward.Who) {
    function Content(): Bytes { if body.Some? then body.value else [] }
  }

  /** What a configuration builds: the rules, the body limit, the router's settings and its breaker's. */
  datatype Setup = Setup(rules: seq<Rule>, maxBody: int, settings: Router.Settings, threshold: nat, cooldown: int) {
    function ActionFor(c: Client): Action {
      Forward.EagerDecision(rules, c.request, c.who, c.Content(), maxBody).action
    }

    predicate CanReplay(c: Client) {
      Forward.Replayable(rules, c.request, c.who, c.body.None?, c.Content(), maxBody)
    }

    predicate Admits(c: Client, token: string, open: bool) {
      Router.Admits(settings, Forward.DirectOf(c.request, c.mitm), token, open)
    }
  }

  datatype Phase =
    | Started
    | Routing                 // decided to reroute
    | AtGateway
    | Returned                // from the gateway, not yet noted
    | Onward(gap: bool)       // about to go upstream
    | AtUpstream(gap: bool)
    | Answering(fate: Fate)
    | Done(fate: Fate)

  /** A request being served: the generation it loaded, where it is, the token and the breaker's answer
      that its reroute went by, and the answers of the remote ends. */
  datatype Job = Job(
    client: Client, gen: nat, phase: Phase, token: string, open: bool, gatewayOk: bool, upstreamOk: bool)

  datatype Move =
    | Decides
    | Rewrites(token: string)  // the token source is read at that moment
    | GatewayReturns(ok: bool)
    | Notes
    | GoesUpstream
    | UpstreamReturns(ok: bool)
    | Answers

  predicate Ready(j: Job, m: Move) {
    match m
    case Decides => j.phase.Started?
    case Rewrites(_) => j.phase.Routing?
    case GatewayReturns(_) => j.phase.AtGateway?
    case Notes => j.phase.Returned?
    case GoesUpstream => j.phase.Onward?
    case UpstreamReturns(_) => j.phase.AtUpstream?
    case Answers => j.phase.Answering?
  }

  /** The request after a move on a generation built as `c`, whose breaker says `open`. */
  function Moved(j: Job, m: Move, c: Setup, open: bool): Job
    requires Ready(j, m)
  {
    match m
    case Decides =>
      var action := c.ActionFor(j.client);
      j.(phase := if action == Block then Answering(Blocked) else if action == Reroute then Routing else Onward(false))
    case Rewrites(token) =>
      j.(token := token, open := open,
         phase := if c.Admits(j.client, token, open) then AtGateway else Onward(false))
    case GatewayReturns(ok) => j.(gatewayOk := ok, phase := Returned)
    case Notes =>
      j.(phase := if j.gatewayOk then Answering(Governed)
                  else if c.settings.failClosed then Answering(FailedClosed)
                  else if !c.CanReplay(j.client) then Answering(NotReplayable)
                  else Onward(true))
    case GoesUpstream => j.(phase := AtUpstream(j.phase.gap))
    case UpstreamReturns(ok) => j.(upstreamOk := ok, phase := Answering(Forwarded(j.phase.gap)))
    case Answers => j.(phase := Done(j.phase.fate))
  }

  /** What others see of a move. */
  function Emitted(j: Job, m: Move, c: Setup, open: bool): Option<Step>
    requires Ready(j, m)
  {
    match m
    case Decides => None
    case Rewrites(token) => if c.Admits(j.client, token, open) then Some(Gateway) else None
    case GatewayReturns(_) => None
    case Notes => Some(Noted(j.gatewayOk))
    case GoesUpstream => Some(Upstream)
    case UpstreamReturns(_) => None
    case Answers => Some(Replied(ReplyOf(j.phase.fate, j.upstreamOk)))
  }

  function Emission(e: Option<Step>): seq<Step> { if e.Some? then [e.value] else [] }

  /** Everything emitted so far. */
  function Seen(j: Job): seq<Step> {
    match j.phase
    case Started => []
    case Routing => []
    case AtGateway => [Gateway]
    case Returned => [Gateway]
    case Onward(gap) => if gap then [Gateway, Noted(false)] else []
    case AtUpstream(gap) => Legs(Forwarded(gap))
    case Answering(f) => Legs(f)
    case Done(f) => Trace(f, j.upstreamOk)
  }

  /** The fate this request is heading for, by its own generation's rules and router. */
  function Destiny(j: Job, c: Setup): Fate {
    FateOf(c.ActionFor(j.client), c.Admits(j.client, j.token, j.open), j.gatewayOk, c.settings.failClosed,
           c.CanReplay(j.client))
  }

  predicate Coherent(j: Job, c: Setup) {
    match j.phase
    case Started => true
    case Routing => c.ActionFor(j.client) == Reroute
    case AtGateway => c.ActionFor(j.client) == Reroute && c.Admits(j.client, j.token, j.open)
    case Returned => c.ActionFor(j.client) == Reroute && c.Admits(j.client, j.token, j.open)
    case Onward(gap) => Destiny(j, c) == Forwarded(gap)
    case AtUpstream(gap) => Destiny(j, c) == Forwarded(gap)
    case Answering(f) => Destiny(j, c) == f
    case Done(f) => Destiny(j, c) == f
  }

  predicate Flying(j: Job) { j.phase.AtGateway? || j.phase.Returned? }

  /** A reroute goes by the breaker: none is admitted while it is open. */
  lemma AdmittedIsClosed(c: Setup, client: Client, token: string)
    ensures !c.Admits(client, token, true)
  {}

  /** One move of one request, taken by itself. */
  lemma MoveKeeps(j: Job, m: Move, c: Setup, open: bool)
    requires Ready(j, m) && Coherent(j, c)
    ensures var next, e := Moved(j, m, c, open), Emitted(j, m, c, open);
            && Coherent(next, c) && next.gen == j.gen && next.client == j.client
            && Seen(next) == Seen(j) + Emission(e)
            && (e == Some(Gateway) ==> !Flying(j) && Flying(next) && !open)
            && (e.Some? && e.value.Noted? ==> Flying(j) && !Flying(next))
            && (e == None || !(e.value == Gateway || e.value.Noted?) ==> Flying(next) == Flying(j))
  {
    MoveEmits(j, m, c, open);
    MoveFlies(j, m, c, open);
    MoveCoherent(j, m, c, open);
    hide *;
  }

  lemma MoveCoherent(j: Job, m: Move, c: Setup, open: bool)
    requires Ready(j, m) && Coherent(j, c)
    ensures var next := Moved(j, m, c, open);
            Coherent(next, c) && next.gen == j.gen && next.client == j.client
  {
    hide Setup.ActionFor, Setup.Admits, Setup.CanReplay;
  }

  lemma MoveFlies(j: Job, m: Move, c: Setup, open: bool)
    requires Ready(j, m)
    ensures var next, e := Moved(j, m, c, open), Emitted(j, m, c, open);
            && (e == Some(Gateway) ==> !Flying(j) && Flying(next) && !open)
            && (e.Some? && e.value.Noted? ==> Flying(j) && !Flying(next))
            && (e == None || !(e.value == Gateway || e.value.Noted?) ==> Flying(next) == Flying(j))
  {
    if m.Rewrites? { AdmittedIsClosed(c, j.client, m.token); }
    hide Setup.ActionFor, Setup.Admits, Setup.CanReplay, ReplyOf;
  }

  lemma MoveEmits(j: Job, m: Move, c: Setup, open: bool)
    requires Ready(j, m)
    ensures Seen(Moved(j, m, c, open)) == Seen(j) + Emission(Emitted(j, m, c, open))
  {
    hide Setup.ActionFor, Setup.Admits, Setup.CanReplay, ReplyOf;
    if m.GoesUpstream? {
      LegsOnward(j.phase.gap);
    } else if m.Answers? {
      hide Legs;
    }
  }

  lemma LegsOnward(gap: bool)
    ensures Legs(Forwarded(gap)) == (if gap then [Gateway, Noted(false)] else []) + [Upstream]
  {}

  // ---------------------------------------------------------------- the system

  /** A configuration generation and the history of its breaker. */
  datatype Generation = Generation(setup: Setup, born: int, history: seq<Event>) {
    predicate Fresh() { setup.threshold > 0 && setup.cooldown > 0 && history == [] }

    predicate Open(now: int) { SaysOpen(history, setup.threshold, setup.cooldown, now) }
  }

  datatype Entry = Entry(at: int, id: nat, gen: nat, step: Step)

  /** The last generation is the live one. */
  datatype System = System(gens: seq<Generation>, jobs: map<nat, Job>, log: seq<Entry>, now: int)

  datatype Act =
    | Tick(elapsed: nat)
    | Reload(next: Generation)
    | Arrive(id: nat, client: Client)
    | Advance(id: nat, move: Move)

  predicate Wellformed(s: System) {
    s.gens != [] && forall id <- s.jobs :: s.jobs[id].gen < |s.gens|
  }

  predicate Enabled(s: System, a: Act) {
    match a
    case Tick(_) => true
    case Reload(next) => next.Fresh() && next.born == s.now
    case Arrive(id, client) => id !in s.jobs && client.who.Valid()
    case Advance(id, m) => id in s.jobs && Ready(s.jobs[id], m)
  }

  function Heard(g: Generation, step: Step, now: int): Generation {
    if step.Noted? then g.(history := g.history + [if step.ok then Succeeded else Failed(now)]) else g
  }

  function Publish(s: System, id: nat, gen: nat, e: Option<Step>): System
    requires gen < |s.gens|
  {
    if e == None then s
    else s.(log := s.log + [Entry(s.now, id, gen, e.value)], gens := s.gens[gen := Heard(s.gens[gen], e.value, s.now)])
  }

  function Next(s: System, a: Act): System
    requires Wellformed(s) && Enabled(s, a)
  {
    match a
    case Tick(elapsed) => s.(now := s.now + elapsed)
    case Reload(next) => s.(gens := s.gens + [next])
    case Arrive(id, client) =>
      s.(jobs := s.jobs[id := Job(client, |s.gens| - 1, Started, "", false, false, false)])
    case Advance(id, m) =>
      var j := s.jobs[id];
      var g := s.gens[j.gen];
      Publish(s, id, j.gen, Emitted(j, m, g.setup, g.Open(s.now))).(
        jobs := s.jobs[id := Moved(j, m, g.setup, g.Open(s.now))])
  }

  function Init(first: Generation): System { System([first], map[], [], first.born) }

  /** The state after a run, or None if some act of it was not possible. */
  function After(first: Generation, acts: seq<Act>): Option<System>
    ensures After(first, acts).Some? ==> Wellformed(After(first, acts).value)
  {
    if acts == [] then Some(Init(first))
    else
      var n := |acts| - 1;
      match After(first, acts[..n])
      case None => None
      case Some(s) => if Enabled(s, acts[n]) then Some(Next(s, acts[n])) else None
  }

  // ---------------------------------------------------------------- reading the log

  /** What request `id` did. */
  function StepsOf(log: seq<Entry>, id: nat): seq<Step> {
    if log == [] then []
    else
      var n := |log| - 1;
      StepsOf(log[..n], id) + if log[n].id == id then [log[n].step] else []
  }

  /** What the breaker of generation `g` was told. */
  function NotesOf(log: seq<Entry>, g: nat): seq<Event> {
    if log == [] then []
    else
      var n := |log| - 1;
      NotesOf(log[..n], g)
      + if log[n].gen == g && log[n].step.Noted?
        then [if log[n].step.ok then Succeeded else Failed(log[n].at)] else []
  }

  predicate OnGeneration(log: seq<Entry>, id: nat, g: nat) {
    forall i :: 0 <= i < |log| && log[i].id == id ==> log[i].gen == g
  }

  // ---------------------------------------------------------------- the invariant

  ghost predicate JobInv(s: System, id: nat)
    requires Wellformed(s)
  {
    if id in s.jobs then
      var j := s.jobs[id];
      && Coherent(j, s.gens[j.gen].setup)
      && j.client.who.Valid()
      && StepsOf(s.log, id) == Seen(j)
      && OnGeneration(s.log, id, j.gen)
    else StepsOf(s.log, id) == [] && OnGeneration(s.log, id, |s.gens|)
  }

  ghost predicate BreakerInv(s: System, g: nat)
    requires g < |s.gens|
  {
    s.gens[g].history == NotesOf(s.log, g) && s.gens[g].setup.threshold > 0 && s.gens[g].setup.cooldown > 0
  }

  ghost predicate LogInv(s: System) {
    forall i :: 0 <= i < |s.log| ==> s.log[i].gen < |s.gens| && s.log[i].id in s.jobs && s.log[i].at <= s.now
  }

  ghost predicate Inv(s: System) {
    && Wellformed(s)
    && (forall id :: JobInv(s, id))
    && (forall g :: 0 <= g < |s.gens| ==> BreakerInv(s, g))
    && LogInv(s)
  }

  lemma LogSnoc(log: seq<Entry>, e: Entry, id: nat, g: nat)
    ensures StepsOf(log + [e], id) == StepsOf(log, id) + if e.id == id then [e.step] else []
    ensures NotesOf(log + [e], g)
         == NotesOf(log, g)
            + if e.gen == g && e.step.Noted? then [if e.step.ok then Succeeded else Failed(e.at)] else []
  {
    assert (log + [e])[..|log|] == log;
  }

  lemma PublishAppends(s: System, id: nat, gen: nat, e: Option<Step>, other: nat, g: nat)
    requires gen < |s.gens|
    ensures var t := Publish(s, id, gen, e);
            && |t.gens| == |s.gens|
            && (forall k :: 0 <= k < |s.gens| ==> t.gens[k].setup == s.gens[k].setup)
            && StepsOf(t.log, other) == StepsOf(s.log, other) + (if other == id then Emission(e) else [])
            && (OnGeneration(s.log, other, g) && (other == id ==> g == gen) ==> OnGeneration(t.log, other, g))
  {
    if e.Some? { LogSnoc(s.log, Entry(s.now, id, gen, e.value), other, g); }
    hide StepsOf;
  }

  lemma AdvanceKeepsJob(s: System, id: nat, m: Move, other: nat)
    requires Wellformed(s) && Enabled(s, Advance(id, m)) && JobInv(s, id) && JobInv(s, other)
    ensures JobInv(Next(s, Advance(id, m)), other)
  {
    var j := s.jobs[id];
    var c, open := s.gens[j.gen].setup, s.gens[j.gen].Open(s.now);
    MoveKeeps(j, m, c, open);
    PublishAppends(s, id, j.gen, Emitted(j, m, c, open), other, if other in s.jobs then s.jobs[other].gen else |s.gens|);
    hide Ready, Moved, Emitted, Seen, Coherent, StepsOf, SaysOpen, OnGeneration, Publish, Emission;
  }

  lemma NextKeepsJob(s: System, a: Act, id: nat)
    requires Wellformed(s) && Enabled(s, a) && LogInv(s) && JobInv(s, id)
    requires a.Advance? ==> JobInv(s, a.id)
    ensures JobInv(Next(s, a), id)
  {
    if a.Advance? { AdvanceKeepsJob(s, a.id, a.move, id); }
  }

  lemma NextKeepsBreaker(s: System, a: Act, g: nat)
    requires Wellformed(s) && Enabled(s, a) && LogInv(s) && g < |Next(s, a).gens|
    requires g < |s.gens| ==> BreakerInv(s, g)
    ensures BreakerInv(Next(s, a), g)
  {
    match a
    case Advance(id, m) =>
      var j := s.jobs[id];
      var e := Emitted(j, m, s.gens[j.gen].setup, s.gens[j.gen].Open(s.now));
      if e.Some? { LogSnoc(s.log, Entry(s.now, id, j.gen, e.value), 0, g); }
    case Reload(next) =>
      if g == |s.gens| { NothingNotedYet(s.log, g); }
    case _ =>
  }

  lemma {:induction false} NothingNotedYet(log: seq<Entry>, g: nat)
    requires forall i :: 0 <= i < |log| ==> log[i].gen < g
    ensures NotesOf(log, g) == []
  {
    if log != [] { NothingNotedYet(log[..|log| - 1], g); }
  }

  lemma NextKeepsLog(s: System, a: Act)
    requires Wellformed(s) && Enabled(s, a) && LogInv(s)
    ensures LogInv(Next(s, a))
  {
    hide Ready, Moved, Emitted, SaysOpen;
  }

  /** What every step of every run keeps. */
  lemma NextKeepsInv(s: System, a: Act)
    requires Inv(s) && Enabled(s, a)
    ensures Inv(Next(s, a))
  {
    var t := Next(s, a);
    NextKeepsLog(s, a);
    forall id ensures JobInv(t, id) { NextKeepsJob(s, a, id); }
    forall g | 0 <= g < |t.gens| ensures BreakerInv(t, g) { NextKeepsBreaker(s, a, g); }
  }

  lemma {:induction false} RunKeepsInv(first: Generation, acts: seq<Act>)
    requires first.Fresh() && After(first, acts).Some?
    ensures Inv(After(first, acts).value)
  {
    if acts != [] {
      var before := acts[..|acts| - 1];
      RunKeepsInv(first, before);
      NextKeepsInv(After(first, before).value, acts[|acts| - 1]);
    }
  }

  // ---------------------------------------------------------------- safety of every run

  /** Each kind of step has its one place: a gateway attempt first, its noted result next, then the
      upstream attempt, and the reply last, exactly when the request is done. */
  predicate Orderly(steps: seq<Step>, failClosed: bool, replayable: bool, done: bool) {
    && (done ==> steps != [])
    && (done ==> steps[|steps| - 1].Replied?)
    && forall i :: 0 <= i < |steps| ==>
         match steps[i]
         case Gateway => i == 0
         case Noted(_) => i == 1 && steps[0] == Gateway
         case Upstream =>
           i == 0 || (i == 2 && steps[0] == Gateway && steps[1] == Noted(false) && !failClosed && replayable)
         case Replied(_) => done && i == |steps| - 1
  }

  lemma SeenIsSafe(j: Job, c: Setup)
    requires Coherent(j, c)
    ensures Orderly(Seen(j), c.settings.failClosed, c.CanReplay(j.client), j.phase.Done?)
    ensures j.phase.Done? ==> Seen(j) == Trace(Destiny(j, c), j.upstreamOk)
  {
    hide Setup.ActionFor, Setup.Admits, Setup.CanReplay;
  }

  /** However requests and reloads interleave: a request makes at most one gateway and one upstream
      attempt; its only reply comes last, and exactly when it is done; all it does happens on one
      generation; it goes upstream after the gateway only if that attempt was noted as failed, the mode is
      fail-open and the body was buffered; and in the end it has the fate that the rules and the router of
      that generation, and no other, give it. */
  lemma InterleavingIsSafe(first: Generation, acts: seq<Act>, id: nat)
    requires first.Fresh() && After(first, acts).Some? && id in After(first, acts).value.jobs
    ensures var s := After(first, acts).value;
            var j, steps := s.jobs[id], StepsOf(s.log, id);
            var c := s.gens[j.gen].setup;
            && Orderly(steps, c.settings.failClosed, c.CanReplay(j.client), j.phase.Done?)
            && (j.phase.Done? ==> steps == Trace(Destiny(j, c), j.upstreamOk))
            && OnGeneration(s.log, id, j.gen)
  {
    RunKeepsInv(first, acts);
    var s := After(first, acts).value;
    assert JobInv(s, id);
    SeenIsSafe(s.jobs[id], s.gens[s.jobs[id].gen].setup);
    hide Seen, Coherent, After, StepsOf, OnGeneration, Trace, Destiny;
  }

  /** A request among many, over any reloads, does what Serve does for it alone: there are answers of the
      outside and a breaker state with which Serve, on the generation that the request loaded, takes the
      very same steps. */
  lemma ServedAlone(first: Generation, acts: seq<Act>, id: nat) returns (env: Forward.Env, open: bool)
    requires first.Fresh() && After(first, acts).Some? && id in After(first, acts).value.jobs
    requires After(first, acts).value.jobs[id].phase.Done?
    ensures var s := After(first, acts).value;
            var client, c := s.jobs[id].client, s.gens[s.jobs[id].gen].setup;
            && env.Valid() && env.who == client.who && env.token == s.jobs[id].token && open == s.jobs[id].open
            && StepsOf(s.log, id) == Trace(
                 Forward.ServedFate(c.rules, c.maxBody, c.settings, client.request, client.mitm, client.body.None?,
                                    client.Content(), env, open),
                 env.upstream.response.Some?)
  {
    InterleavingIsSafe(first, acts, id);
    RunKeepsInv(first, acts);
    var s := After(first, acts).value;
    assert JobInv(s, id);
    hide After, StepsOf, OnGeneration, Trace, Orderly, Coherent, Inv;
    var j := s.jobs[id];
    env := Forward.Env(j.client.who, j.token, "", 0, 0, Answered(j.gatewayOk), Answered(j.upstreamOk));
    open := j.open;
  }

  /** A request that was to be rerouted has been through Rewrite. */
  predicate Asked(j: Job, c: Setup) { !j.phase.Started? && !j.phase.Routing? && c.ActionFor(j.client) == Reroute }

  lemma MoveAsks(j: Job, m: Move, c: Setup, open: bool)
    requires Ready(j, m) && Asked(Moved(j, m, c, open), c)
    ensures if m.Rewrites? then Moved(j, m, c, open).token == m.token && Moved(j, m, c, open).open == open
            else Asked(j, c) && Moved(j, m, c, open).token == j.token && Moved(j, m, c, open).open == j.open
  {
    hide Setup.ActionFor, Setup.Admits, Setup.CanReplay;
  }

  /** What a reroute went by is what the breaker of its own generation said at that very moment of the
      run: act number `k` was its Rewrite. */
  lemma {:induction false} RerouteAsksItsBreaker(first: Generation, acts: seq<Act>, id: nat) returns (k: nat)
    requires After(first, acts).Some? && id in After(first, acts).value.jobs
    requires var s := After(first, acts).value; Asked(s.jobs[id], s.gens[s.jobs[id].gen].setup)
    ensures k < |acts| && After(first, acts[..k]).Some?
    ensures var s, t := After(first, acts[..k]).value, After(first, acts).value;
            && acts[k] == Advance(id, Rewrites(t.jobs[id].token))
            && id in s.jobs && s.jobs[id].gen == t.jobs[id].gen
            && t.jobs[id].open == s.gens[s.jobs[id].gen].Open(s.now)
  {
    var n := |acts| - 1;
    var s, a := After(first, acts[..n]).value, acts[n];
    NextAsks(s, a, id);
    hide Next, Enabled, Asked;
    if a.Advance? && a.id == id && a.move.Rewrites? {
      k := n;
    } else {
      k := RerouteAsksItsBreaker(first, acts[..n], id);
      hide After;
      assert acts[..n][..k] == acts[..k];
    }
  }

  lemma NextAsks(s: System, a: Act, id: nat)
    requires Wellformed(s) && Enabled(s, a) && Wellformed(Next(s, a)) && id in Next(s, a).jobs
    requires var t := Next(s, a); Asked(t.jobs[id], t.gens[t.jobs[id].gen].setup)
    ensures var t := Next(s, a);
            && id in s.jobs && s.jobs[id].gen == t.jobs[id].gen
            && if a.Advance? && a.id == id && a.move.Rewrites? then
                 t.jobs[id].token == a.move.token && t.jobs[id].open == s.gens[s.jobs[id].gen].Open(s.now)
               else
                 && Asked(s.jobs[id], s.gens[s.jobs[id].gen].setup)
                 && t.jobs[id].token == s.jobs[id].token && t.jobs[id].open == s.jobs[id].open
  {
    if id in s.jobs { NextKeepsGeneration(s, a, id); }
    if a.Advance? && a.id == id {
      var g := s.gens[s.jobs[id].gen];
      MoveAsks(s.jobs[id], a.move, g.setup, g.Open(s.now));
    }
    hide Ready, Moved, Emitted, Publish, SaysOpen, Setup.ActionFor;
  }

  function Answered(ok: bool): Forward.Answer {
    Forward.Answer(0, if ok then Some(Forward.Response(200, map[], [])) else None)
  }

  /** Each breaker hears of its own generation's attempts only, and half-open is never reached. */
  lemma BreakerHearsItsOwn(first: Generation, acts: seq<Act>, g: nat)
    requires first.Fresh() && After(first, acts).Some? && g < |After(first, acts).value.gens|
    ensures var s := After(first, acts).value;
            && s.gens[g].history == NotesOf(s.log, g)
            && !ProbeOut(s.gens[g].history, s.gens[g].setup.threshold, s.gens[g].setup.cooldown)
  {
    RunKeepsInv(first, acts);
    var s := After(first, acts).value;
    assert BreakerInv(s, g);
    NeverAsked(s.log, g);
    HalfOpenUnreachable(s.gens[g].history, s.gens[g].setup.threshold, s.gens[g].setup.cooldown);
  }

  lemma {:induction false} NeverAsked(log: seq<Entry>, g: nat)
    ensures RouterHistory(NotesOf(log, g))
  {
    if log != [] { NeverAsked(log[..|log| - 1], g); }
  }

  predicate SameSettings(a: Generation, b: Generation) { a.(history := []) == b.(history := []) }

  lemma NextKeepsGeneration(s: System, a: Act, id: nat)
    requires Wellformed(s) && Enabled(s, a) && id in s.jobs
    ensures var t := Next(s, a);
            && Wellformed(t)
            && id in t.jobs && t.jobs[id].gen == s.jobs[id].gen && t.jobs[id].client == s.jobs[id].client
            && SameSettings(t.gens[s.jobs[id].gen], s.gens[s.jobs[id].gen])
  {
    hide Ready, Moved, Emitted, SaysOpen;
    if a.Advance? {
      var g := s.gens[s.jobs[a.id].gen];
      MovedKeepsGen(s.jobs[a.id], a.move, g.setup, g.Open(s.now));
    }
  }

  lemma MovedKeepsGen(j: Job, m: Move, c: Setup, open: bool)
    requires Ready(j, m)
    ensures Moved(j, m, c, open).gen == j.gen && Moved(j, m, c, open).client == j.client
  {
    hide Setup.ActionFor, Setup.Admits, Setup.CanReplay;
  }

  /** A request keeps the generation that was live when it arrived, with its settings, to the end. */
  lemma {:induction false} GenerationIsLoadedOnce(first: Generation, acts: seq<Act>, id: nat, client: Client, k: nat)
    requires After(first, acts).Some? && k < |acts| && acts[k] == Arrive(id, client)
    ensures After(first, acts[..k]).Some?
    ensures var s, t := After(first, acts[..k]).value, After(first, acts).value;
            && id in t.jobs && t.jobs[id].client == client && t.jobs[id].gen == |s.gens| - 1 < |t.gens|
            && SameSettings(t.gens[|s.gens| - 1], s.gens[|s.gens| - 1])
  {
    hide Ready, Moved, Emitted, Publish, SaysOpen;
    var n := |acts| - 1;
    if k < n {
      assert acts[..n][..k] == acts[..k];
      GenerationIsLoadedOnce(first, acts[..n], id, client, k);
      NextKeepsGeneration(After(first, acts[..n]).value, acts[n], id);
      hide Next, Enabled, After;
    }
  }

  // ---------------------------------------------------------------- a dead gateway

  /** The attempts of generation `g`, as the breaker's analysis wants them. */
  function MovesOf(log: seq<Entry>, g: nat): seq<Circuit.Move> {
    if log == [] then []
    else
      var n := |log| - 1;
      MovesOf(log[..n], g)
      + if log[n].gen != g then []
        else if log[n].step == Gateway then [Dispatch(log[n].at)]
        else if log[n].step == Noted(false) then [Fails(log[n].at)]
        else []
  }

  /** No attempt of generation `g` has succeeded. */
  ghost predicate Dead(log: seq<Entry>, g: nat) {
    forall i :: 0 <= i < |log| && log[i].gen == g ==> log[i].step != Noted(true)
  }

  function FlyingOn(s: System, g: nat): set<nat> {
    set id | id in s.jobs && s.jobs[id].gen == g && Flying(s.jobs[id])
  }

  /** At no point of the run were more than `m` requests of generation `g` at the gateway. */
  ghost predicate Uncrowded(first: Generation, acts: seq<Act>, g: nat, m: nat)
    requires After(first, acts).Some?
  {
    && |FlyingOn(After(first, acts).value, g)| <= m
    && (acts != [] ==> Uncrowded(first, acts[..|acts| - 1], g, m))
  }

  ghost predicate DeadRun(run: seq<Circuit.Move>, c: Generation, flying: set<nat>, now: int, m: nat) {
    && DeadGatewayRun(run, c.setup.threshold, c.setup.cooldown, c.born, m)
    && Failures(run) == c.history
    && InFlight(run) == |flying|
    && Clock(run, c.born) <= now
  }

  ghost predicate DeadInv(s: System, g: nat, m: nat)
    requires g < |s.gens|
  {
    DeadRun(MovesOf(s.log, g), s.gens[g], FlyingOn(s, g), s.now, m)
  }

  /** How one entry extends the attempts. */
  lemma MovesSnoc(log: seq<Entry>, e: Entry, g: nat)
    ensures MovesOf(log + [e], g)
         == MovesOf(log, g)
            + if e.gen != g then []
              else if e.step == Gateway then [Dispatch(e.at)]
              else if e.step == Noted(false) then [Fails(e.at)]
              else []
  {
    assert (log + [e])[..|log|] == log;
  }

  lemma DispatchExtends(run: seq<Circuit.Move>, c: Generation, flying: set<nat>, now: int, m: nat, id: nat)
    requires DeadRun(run, c, flying, now, m) && !c.Open(now) && id !in flying && |flying + {id}| <= m
    ensures DeadRun(run + [Dispatch(now)], c, flying + {id}, now, m)
  {
    assert (run + [Dispatch(now)])[..|run|] == run;
    hide SaysOpen;
  }

  lemma FailsExtends(run: seq<Circuit.Move>, c: Generation, flying: set<nat>, now: int, m: nat, id: nat)
    requires DeadRun(run, c, flying, now, m) && id in flying
    ensures DeadRun(run + [Fails(now)], c.(history := c.history + [Failed(now)]), flying - {id}, now, m)
  {
    assert (run + [Fails(now)])[..|run|] == run;
    hide SaysOpen;
  }

  lemma AdvanceFlying(s: System, id: nat, mv: Move, g: nat)
    requires Wellformed(s) && Enabled(s, Advance(id, mv))
    ensures var now := Moved(s.jobs[id], mv, s.gens[s.jobs[id].gen].setup, s.gens[s.jobs[id].gen].Open(s.now));
            var t := Next(s, Advance(id, mv));
            var own := now.gen == g && s.jobs[id].gen == g;
            && (own && Flying(now) ==> FlyingOn(t, g) == FlyingOn(s, g) + {id})
            && (own && !Flying(now) ==> FlyingOn(t, g) == FlyingOn(s, g) - {id})
            && (now.gen != g && s.jobs[id].gen != g ==> FlyingOn(t, g) == FlyingOn(s, g))
            && (s.jobs[id].gen == g ==> (id in FlyingOn(s, g) <==> Flying(s.jobs[id])))
  {
    hide Ready, Moved, Emitted, SaysOpen, Flying, Publish;
  }

  /** The generation and the attempts after an emission. */
  lemma AdvancePublished(s: System, id: nat, mv: Move, g: nat)
    requires Wellformed(s) && Enabled(s, Advance(id, mv)) && g < |s.gens|
    requires Dead(Next(s, Advance(id, mv)).log, g)
    ensures var j, t := s.jobs[id], Next(s, Advance(id, mv));
            var e := Emitted(j, mv, s.gens[j.gen].setup, s.gens[j.gen].Open(s.now));
            && |t.gens| == |s.gens| && t.now == s.now
            && (j.gen == g ==> e != Some(Noted(true)))
            && MovesOf(t.log, g) == MovesOf(s.log, g)
                 + (if j.gen == g && e == Some(Gateway) then [Dispatch(s.now)]
                    else if j.gen == g && e == Some(Noted(false)) then [Fails(s.now)] else [])
            && t.gens[g] == if j.gen == g && e == Some(Noted(false))
                            then s.gens[g].(history := s.gens[g].history + [Failed(s.now)]) else s.gens[g]
  {
    var j, t := s.jobs[id], Next(s, Advance(id, mv));
    var e := Emitted(j, mv, s.gens[j.gen].setup, s.gens[j.gen].Open(s.now));
    hide Ready, Moved, Emitted, SaysOpen, MovesOf;
    if e.Some? {
      MovesSnoc(s.log, Entry(s.now, id, j.gen, e.value), g);
      assert t.log[|s.log|] == Entry(s.now, id, j.gen, e.value);
    } else {
      assert MovesOf(s.log, g) + [] == MovesOf(s.log, g);
    }
  }

  lemma AdvanceKeepsDead(s: System, id: nat, mv: Move, g: nat, m: nat)
    requires Wellformed(s) && Enabled(s, Advance(id, mv)) && JobInv(s, id)
    requires g < |s.gens| && DeadInv(s, g, m)
    requires var t := Next(s, Advance(id, mv)); Dead(t.log, g) && |FlyingOn(t, g)| <= m
    ensures DeadInv(Next(s, Advance(id, mv)), g, m)
  {
    var j, c, run := s.jobs[id], s.gens[g], MovesOf(s.log, g);
    MoveKeeps(j, mv, s.gens[j.gen].setup, s.gens[j.gen].Open(s.now));
    AdvanceFlying(s, id, mv, g);
    AdvancePublished(s, id, mv, g);
    var e := Emitted(j, mv, s.gens[j.gen].setup, s.gens[j.gen].Open(s.now));
    hide Next, Enabled, Ready, Moved, Emitted, Seen, Coherent, DeadRun, SaysOpen, MovesOf, Flying, FlyingOn, StepsOf,
         OnGeneration, Dead;
    if j.gen == g && e == Some(Gateway) {
      DispatchExtends(run, c, FlyingOn(s, g), s.now, m, id);
    } else if j.gen == g && e == Some(Noted(false)) {
      FailsExtends(run, c, FlyingOn(s, g), s.now, m, id);
    } else {
      assert run + [] == run;
    }
  }

  lemma {:induction false} NoMovesYet(log: seq<Entry>, g: nat)
    requires forall i :: 0 <= i < |log| ==> log[i].gen < g
    ensures MovesOf(log, g) == []
  {
    if log != [] { NoMovesYet(log[..|log| - 1], g); }
  }

  lemma BornDead(s: System, g: nat, m: nat)
    requires Wellformed(s) && LogInv(s) && g == |s.gens| - 1 && s.gens[g].Fresh() && s.gens[g].born <= s.now
    requires forall i :: 0 <= i < |s.log| ==> s.log[i].gen < g
    requires FlyingOn(s, g) == {}
    ensures DeadInv(s, g, m)
  {
    NoMovesYet(s.log, g);
  }

  lemma NextKeepsDead(s: System, a: Act, g: nat, m: nat)
    requires Inv(s) && Enabled(s, a) && g < |Next(s, a).gens|
    requires g < |s.gens| ==> DeadInv(s, g, m)
    requires Dead(Next(s, a).log, g) && |FlyingOn(Next(s, a), g)| <= m
    ensures DeadInv(Next(s, a), g, m)
  {
    hide DeadGatewayRun, Failures, InFlight, MovesOf, SaysOpen, StepsOf, NotesOf, Seen, Coherent, Ready, Moved, Emitted;
    var t := Next(s, a);
    match a
    case Tick(_) => assert FlyingOn(t, g) == FlyingOn(s, g);
    case Reload(_) =>
      if g < |s.gens| {
        assert FlyingOn(t, g) == FlyingOn(s, g);
      } else {
        NextKeepsLog(s, a);
        BornDead(t, g, m);
      }
    case Arrive(_, _) => assert FlyingOn(t, g) == FlyingOn(s, g);
    case Advance(id, mv) =>
      assert JobInv(s, id);
      AdvanceKeepsDead(s, id, mv, g, m);
  }

  lemma DeadBefore(s: System, a: Act, g: nat)
    requires Wellformed(s) && Enabled(s, a) && Dead(Next(s, a).log, g)
    ensures Dead(s.log, g)
  {
    hide Ready, Moved, Emitted, SaysOpen;
    var t := Next(s, a);
    assert |s.log| <= |t.log| && forall i :: 0 <= i < |s.log| ==> t.log[i] == s.log[i];
  }

  lemma {:induction false} RunKeepsDead(first: Generation, acts: seq<Act>, g: nat, m: nat)
    requires first.Fresh() && After(first, acts).Some? && g < |After(first, acts).value.gens|
    requires Dead(After(first, acts).value.log, g) && Uncrowded(first, acts, g, m)
    ensures DeadInv(After(first, acts).value, g, m)
  {
    hide DeadInv, Dead, FlyingOn;
    if acts == [] {
      FreshIsDead(first, m);
    } else {
      var before, a := acts[..|acts| - 1], acts[|acts| - 1];
      var s := After(first, before).value;
      RunKeepsInv(first, before);
      DeadBefore(s, a, g);
      if g < |s.gens| { RunKeepsDead(first, before, g, m); }
      NextKeepsDead(s, a, g, m);
    }
  }

  lemma FreshIsDead(first: Generation, m: nat)
    requires first.Fresh()
    ensures DeadInv(Init(first), 0, m)
  {}

  /** The dead-gateway bound for the whole agent: however requests interleave, with at most `m` of a
      generation's requests at the gateway at a time, a gateway that never answers them is tried at most
      threshold + m - 1 + m * (T / cooldown) times in the time T since that generation was loaded. */
  lemma DeadGatewayIsSpared(first: Generation, acts: seq<Act>, g: nat, m: nat)
    requires first.Fresh() && After(first, acts).Some? && g < |After(first, acts).value.gens| && m > 0
    requires Dead(After(first, acts).value.log, g) && Uncrowded(first, acts, g, m)
    requires After(first, acts).value.gens[g].setup.cooldown > 0
    ensures var s := After(first, acts).value;
            var c := s.gens[g];
            Dispatches(MovesOf(s.log, g)) <= c.setup.threshold + m - 1 + m * ((s.now - c.born) / c.setup.cooldown)
  {
    hide *;
    RunKeepsBreaker(first, acts, g);
    RunKeepsDead(first, acts, g, m);
    BoundFromRun(After(first, acts).value, g, m);
  }

  lemma RunKeepsBreaker(first: Generation, acts: seq<Act>, g: nat)
    requires first.Fresh() && After(first, acts).Some? && g < |After(first, acts).value.gens|
    ensures BreakerInv(After(first, acts).value, g)
  {
    RunKeepsInv(first, acts);
  }

  lemma BoundFromRun(s: System, g: nat, m: nat)
    requires g < |s.gens| && BreakerInv(s, g) && DeadInv(s, g, m) && m > 0
    ensures var c := s.gens[g];
            Dispatches(MovesOf(s.log, g)) <= c.setup.threshold + m - 1 + m * ((s.now - c.born) / c.setup.cooldown)
  {
    hide DeadGatewayRun, Dispatches, MovesOf, FlyingOn, Failures, InFlight;
    var c := s.gens[g];
    DeadGatewayBound(MovesOf(s.log, g), c.setup.threshold, c.setup.cooldown, c.born, m, s.now);
  }
}

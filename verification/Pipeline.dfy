/** The per-request decision (internal/pipeline/pipeline.go): tiered policy compiled to one rule list. */
module Pipeline {
  import opened Common
  import opened Config
  import opened Http
  import opened Classifier
  import HostMatch
  import PathMatch
  import Headers
  import Text

  // ---------------------------------------------------------------- compilation

  predicate PolicyBearing(h: InterceptHost) {
    h.action != NoAction || h.category != NoCategory || h.Scoped()
  }

  /** A scoped entry with neither action nor category governs its requests: it reroutes them. */
  function EntryAction(h: InterceptHost): Action {
    if h.action == NoAction && h.category == NoCategory && h.Scoped() then Reroute else h.action
  }

  function EntryRule(h: InterceptHost): Rule {
    Rule("host:" + h.host, [h.host], [], h.paths, h.methods, map[], h.category, EntryAction(h))
  }

  function RestRule(host: string): Rule {
    Rule("host:" + host + ":rest", [host], [], [], [], map[], Other, Passthrough)
  }

  function EntryRules(hosts: seq<InterceptHost>): seq<Rule> {
    if hosts == [] then []
    else
      var last := hosts[|hosts| - 1];
      EntryRules(hosts[..|hosts| - 1]) + if PolicyBearing(last) then [EntryRule(last)] else []
  }

  /** The distinct scoped host patterns, in order of first appearance. */
  function ScopedHosts(hosts: seq<InterceptHost>): seq<string> {
    if hosts == [] then []
    else
      var before, last := ScopedHosts(hosts[..|hosts| - 1]), hosts[|hosts| - 1];
      before + if last.Scoped() && last.host !in before then [last.host] else []
  }

  function RestRules(scoped: seq<string>): seq<Rule> {
    seq(|scoped|, i requires 0 <= i < |scoped| => RestRule(scoped[i]))
  }

  function EffectiveRules(p: Policy): seq<Rule> {
    p.rules + EntryRules(p.hosts) + RestRules(ScopedHosts(p.hosts))
  }

  /** effectiveRules: one pass over the entries, a second over the scoped hosts it collected. */
  method CompileRules(p: Policy) returns (out: seq<Rule>)
    ensures out == EffectiveRules(p)
  {
    out := p.rules;
    var scoped: seq<string> := [];
    var seen: set<string> := {};
    for i := 0 to |p.hosts|
      invariant out == p.rules + EntryRules(p.hosts[..i])
      invariant scoped == ScopedHosts(p.hosts[..i])
      invariant forall h :: h in seen <==> h in scoped
    {
      hide EntryRules, ScopedHosts;
      var h := p.hosts[i];
      CompiledSnoc(p.hosts, i, p.rules);
      if h.action != NoAction || h.category != NoCategory || h.Scoped() {
        var action := h.action;
        if action == NoAction && h.category == NoCategory && h.Scoped() { action := Reroute; }
        out := out + [Rule("host:" + h.host, [h.host], [], h.paths, h.methods, map[], h.category, action)];
      }
      if h.Scoped() && h.host !in seen {
        seen := seen + {h.host};
        scoped := scoped + [h.host];
      }
    }
    assert p.hosts[..|p.hosts|] == p.hosts;
    hide EntryRules, ScopedHosts;
    ghost var front, rest := out, RestRules(scoped);
    for i := 0 to |scoped|
      invariant out == front + rest[..i]
    {
      assert rest[..i + 1] == rest[..i] + [rest[i]];
      out := out + [Rule("host:" + scoped[i] + ":rest", [scoped[i]], [], [], [], map[], Other, Passthrough)];
    }
    assert rest[..|scoped|] == rest;
  }

  lemma CompiledSnoc(hosts: seq<InterceptHost>, i: nat, front: seq<Rule>)
    requires i < |hosts|
    ensures front + EntryRules(hosts[..i + 1])
         == front + EntryRules(hosts[..i]) + if PolicyBearing(hosts[i]) then [EntryRule(hosts[i])] else []
    ensures ScopedHosts(hosts[..i + 1])
         == var before := ScopedHosts(hosts[..i]);
            before + if hosts[i].Scoped() && hosts[i].host !in before then [hosts[i].host] else []
  {
    var h := hosts[..i + 1];
    assert h[..i] == hosts[..i] && h[i] == hosts[i];
  }

  /** New: the compiled rules, and whether any of them looks at the body. */
  method New(p: Policy) returns (rules: seq<Rule>, bodyMatters: bool)
    ensures rules == EffectiveRules(p)
    ensures bodyMatters <==> BodyMatters(rules)
  {
    rules := CompileRules(p);
    bodyMatters := false;
    for i := 0 to |rules|
      invariant !bodyMatters && forall j :: 0 <= j < i ==> rules[j].matchBody == map[]
    {
      if rules[i].matchBody != map[] {
        bodyMatters := true;
        break;
      }
    }
  }

  /** Only the configured rules can look at the body: compiled host entries never do. */
  lemma BodyMattersIff(p: Policy)
    ensures BodyMatters(EffectiveRules(p)) <==> BodyMatters(p.rules)
  {
    EntryRulesBodyFree(p.hosts);
    var e := EffectiveRules(p);
    var n, m := |p.rules|, |EntryRules(p.hosts)|;
    forall i | n <= i < |e| ensures e[i].matchBody == map[] {
      if i < n + m { assert e[i] == EntryRules(p.hosts)[i - n]; }
    }
    forall i | 0 <= i < n ensures e[i] == p.rules[i] {}
    if BodyMatters(p.rules) {
      var i :| 0 <= i < n && p.rules[i].matchBody != map[];
      assert e[i].matchBody != map[];
    }
  }

  lemma {:induction false} EntryRulesBodyFree(hosts: seq<InterceptHost>)
    ensures forall i :: 0 <= i < |EntryRules(hosts)| ==> EntryRules(hosts)[i].matchBody == map[]
  {
    if hosts != [] { EntryRulesBodyFree(hosts[..|hosts| - 1]); }
  }

  // ---------------------------------------------------------------- the tiered meaning

  predicate EntryMatches(h: InterceptHost, req: Request) {
    && PolicyBearing(h)
    && HostMatch.Match(h.host, req.host)
    && (h.paths != [] ==> PathMatch.MatchAny(h.paths, req.url.path))
    && (h.methods != [] ==> ContainsFold(h.methods, req.verb))
  }

  predicate ScopeMatches(h: InterceptHost, req: Request) {
    h.Scoped() && HostMatch.Match(h.host, req.host)
  }

  ghost predicate FirstEntryAt(hosts: seq<InterceptHost>, req: Request, i: int) {
    0 <= i < |hosts| && EntryMatches(hosts[i], req) && forall j :: 0 <= j < i ==> !EntryMatches(hosts[j], req)
  }

  ghost predicate FirstScopeAt(hosts: seq<InterceptHost>, req: Request, i: int) {
    0 <= i < |hosts| && ScopeMatches(hosts[i], req) && forall j :: 0 <= j < i ==> !ScopeMatches(hosts[j], req)
  }

  function EntryVerdict(h: InterceptHost): Verdict {
    Verdict(h.category, if EntryAction(h) == NoAction then DefaultAction(h.category) else EntryAction(h),
            "host:" + h.host, true)
  }

  function RestVerdict(h: InterceptHost): Verdict { Verdict(Other, Passthrough, "host:" + h.host + ":rest", true) }

  /** What the configuration means: the first matching top-level rule; else the first matching host
      entry; else pass through on a host that some entry scopes; else the body heuristic. */
  ghost predicate TieredVerdict(p: Policy, req: Request, body: Option<JsonObject>, v: Verdict) {
    if exists i :: FirstMatchAt(p.rules, req, body, i) then
      exists i :: FirstMatchAt(p.rules, req, body, i) && v == RuleVerdict(p.rules[i])
    else if exists i :: FirstEntryAt(p.hosts, req, i) then
      exists i :: FirstEntryAt(p.hosts, req, i) && v == EntryVerdict(p.hosts[i])
    else if exists i :: FirstScopeAt(p.hosts, req, i) then
      exists i :: FirstScopeAt(p.hosts, req, i) && v == RestVerdict(p.hosts[i])
    else v == Heuristic(body)
  }

  lemma EntryRuleMatches(h: InterceptHost, req: Request, body: Option<JsonObject>)
    requires PolicyBearing(h)
    ensures RuleMatches(EntryRule(h), req, body) <==> EntryMatches(h, req)
    ensures RuleVerdict(EntryRule(h)) == EntryVerdict(h)
  {
    SingleHost(h.host, req.host);
  }

  lemma RestRuleMatches(host: string, req: Request, body: Option<JsonObject>)
    ensures RuleMatches(RestRule(host), req, body) <==> HostMatch.Match(host, req.host)
  {
    SingleHost(host, req.host);
  }

  lemma SingleHost(pattern: string, host: string)
    ensures HostMatch.MatchAny([pattern], host) <==> HostMatch.Match(pattern, host)
  {
    hide HostMatch.Match;
    assert [pattern][0] == pattern;
  }

  lemma SingleRule(r: Rule, req: Request, body: Option<JsonObject>)
    ensures NoMatch([r], req, body) <==> !RuleMatches(r, req, body)
    ensures RuleMatches(r, req, body) ==> Classify([r], req, body) == RuleVerdict(r)
  {
    hide RuleMatches;
    assert [r][0] == r;
  }

  lemma NoMatchConcat(a: seq<Rule>, b: seq<Rule>, req: Request, body: Option<JsonObject>)
    ensures NoMatch(a + b, req, body) <==> NoMatch(a, req, body) && NoMatch(b, req, body)
  {
    hide RuleMatches;
    var c := a + b;
    assert forall i :: 0 <= i < |a| ==> c[i] == a[i];
    assert forall i :: 0 <= i < |b| ==> c[i + |a|] == b[i];
    assert forall i :: |a| <= i < |c| ==> c[i] == b[i - |a|];
  }

  /** Appending one rule. */
  lemma ClassifySnoc(rules: seq<Rule>, r: Rule, req: Request, body: Option<JsonObject>)
    ensures NoMatch(rules + [r], req, body) <==> NoMatch(rules, req, body) && !RuleMatches(r, req, body)
    ensures !NoMatch(rules, req, body) ==> Classify(rules + [r], req, body) == Classify(rules, req, body)
    ensures NoMatch(rules, req, body) && RuleMatches(r, req, body) ==> Classify(rules + [r], req, body) == RuleVerdict(r)
  {
    SingleRule(r, req, body);
    NoMatchConcat(rules, [r], req, body);
    hide RuleMatches, Classify;
    if NoMatch(rules, req, body) { SkipPrefix(rules, [r], req, body); } else { PrefixDecides(rules, [r], req, body); }
  }

  ghost predicate NoEntry(hosts: seq<InterceptHost>, req: Request) {
    forall i :: 0 <= i < |hosts| ==> !EntryMatches(hosts[i], req)
  }

  ghost predicate NoScope(hosts: seq<InterceptHost>, req: Request) {
    forall i :: 0 <= i < |hosts| ==> !ScopeMatches(hosts[i], req)
  }

  lemma OnlyPolicyMatches(h: InterceptHost, req: Request)
    ensures EntryMatches(h, req) ==> PolicyBearing(h)
  {}

  lemma NoEntrySnoc(hosts: seq<InterceptHost>, req: Request)
    requires hosts != []
    ensures NoEntry(hosts, req) <==> NoEntry(hosts[..|hosts| - 1], req) && !EntryMatches(hosts[|hosts| - 1], req)
  {
    hide EntryMatches;
    assert hosts == hosts[..|hosts| - 1] + [hosts[|hosts| - 1]];
  }

  /** Classifying over the compiled entries finds the first matching entry, number `i`. */
  lemma {:induction false} EntryRulesMeaning(hosts: seq<InterceptHost>, req: Request, body: Option<JsonObject>)
      returns (i: int)
    ensures NoMatch(EntryRules(hosts), req, body) <==> NoEntry(hosts, req)
    ensures !NoEntry(hosts, req) ==>
              FirstEntryAt(hosts, req, i) && Classify(EntryRules(hosts), req, body) == EntryVerdict(hosts[i])
  {
    hide RuleMatches, Classify, EntryMatches, EntryRule, EntryVerdict, RuleVerdict, PolicyBearing;
    i := 0;
    if hosts != [] {
      var n := |hosts| - 1;
      var init, last := hosts[..n], hosts[n];
      OnlyPolicyMatches(last, req);
      i := EntryRulesMeaning(init, req, body);
      NoEntrySnoc(hosts, req);
      hide NoEntry;
      if PolicyBearing(last) {
        assert EntryRules(hosts) == EntryRules(init) + [EntryRule(last)];
        hide EntryRules;
        EntryRuleMatches(last, req, body);
        ClassifySnoc(EntryRules(init), EntryRule(last), req, body);
      } else {
        assert EntryRules(hosts) == EntryRules(init);
      }
      if NoEntry(init, req) { i := n; }
    }
  }

  lemma {:induction false} ScopedHostsFrom(hosts: seq<InterceptHost>, host: string)
    ensures host in ScopedHosts(hosts) <==> exists i :: 0 <= i < |hosts| && hosts[i].Scoped() && hosts[i].host == host
  {
    if hosts != [] {
      var n := |hosts| - 1;
      ScopedHostsFrom(hosts[..n], host);
      if host in ScopedHosts(hosts[..n]) {
        var i :| 0 <= i < n && hosts[..n][i].Scoped() && hosts[..n][i].host == host;
        assert hosts[i].Scoped() && hosts[i].host == host;
      }
      if i :| 0 <= i < |hosts| && hosts[i].Scoped() && hosts[i].host == host {
        if i < n { assert hosts[..n][i].Scoped() && hosts[..n][i].host == host; }
      }
    }
  }

  lemma ScopedHostSeen(hosts: seq<InterceptHost>, host: string, req: Request)
    requires host in ScopedHosts(hosts) && HostMatch.Match(host, req.host)
    ensures !NoScope(hosts, req)
  {
    ScopedHostsFrom(hosts, host);
    var i :| 0 <= i < |hosts| && hosts[i].Scoped() && hosts[i].host == host;
    assert ScopeMatches(hosts[i], req);
  }

  /** Classifying over the catch-alls finds the first entry that scopes the host, number `i`. */
  lemma {:induction false} RestRulesMeaning(hosts: seq<InterceptHost>, req: Request, body: Option<JsonObject>)
      returns (i: int)
    ensures NoMatch(RestRules(ScopedHosts(hosts)), req, body) <==> NoScope(hosts, req)
    ensures !NoScope(hosts, req) ==>
              && FirstScopeAt(hosts, req, i)
              && Classify(RestRules(ScopedHosts(hosts)), req, body) == RestVerdict(hosts[i])
  {
    hide RuleMatches, Classify, HostMatch.Match;
    i := 0;
    if hosts != [] {
      var n := |hosts| - 1;
      var init, last := hosts[..n], hosts[n];
      var scoped := ScopedHosts(init);
      i := RestRulesMeaning(init, req, body);
      assert NoScope(hosts, req) <==> NoScope(init, req) && !ScopeMatches(last, req);
      if last.host in scoped && ScopeMatches(last, req) { ScopedHostSeen(init, last.host, req); }
      if last.Scoped() && last.host !in scoped {
        RestRuleMatches(last.host, req, body);
        assert RestRules(scoped + [last.host]) == RestRules(scoped) + [RestRule(last.host)];
        ClassifySnoc(RestRules(scoped), RestRule(last.host), req, body);
      } else {
        assert ScopedHosts(hosts) == scoped;
      }
      if NoScope(init, req) { i := n; }
    }
  }

  lemma {:induction false} FirstMatchExists(rules: seq<Rule>, req: Request, body: Option<JsonObject>)
    requires !NoMatch(rules, req, body)
    ensures exists i :: FirstMatchAt(rules, req, body, i)
  {
    hide RuleMatches;
    var n := |rules| - 1;
    if !NoMatch(rules[..n], req, body) {
      FirstMatchExists(rules[..n], req, body);
      var i :| FirstMatchAt(rules[..n], req, body, i);
      assert FirstMatchAt(rules, req, body, i);
    } else {
      assert forall j :: 0 <= j < n ==> rules[j] == rules[..n][j];
      assert FirstMatchAt(rules, req, body, n);
    }
  }

  /** Compilation preserves the tiered meaning of the policy, on every request and body. */
  lemma CompilationPreservesMeaning(p: Policy, req: Request, body: Option<JsonObject>)
    ensures TieredVerdict(p, req, body, Classify(EffectiveRules(p), req, body))
  {
    hide RuleMatches, Classify, EntryMatches, ScopeMatches, RuleVerdict, EntryVerdict, RestVerdict, EntryRules, ScopedHosts;
    var es, rs := EntryRules(p.hosts), RestRules(ScopedHosts(p.hosts));
    assert EffectiveRules(p) == p.rules + (es + rs);
    var e := EntryRulesMeaning(p.hosts, req, body);
    var r := RestRulesMeaning(p.hosts, req, body);
    if !NoMatch(p.rules, req, body) {
      PrefixDecides(p.rules, es + rs, req, body);
      FirstMatchExists(p.rules, req, body);
      var i :| FirstMatchAt(p.rules, req, body, i);
      FirstMatchWins(p.rules, req, body, i);
    } else {
      SkipPrefix(p.rules, es + rs, req, body);
      if !NoMatch(es, req, body) {
        PrefixDecides(es, rs, req, body);
      } else {
        SkipPrefix(es, rs, req, body);
        if NoMatch(rs, req, body) { NoMatchIsHeuristic(rs, req, body); }
      }
    }
  }

  /** The tiered meaning leaves no choice, so it determines the compiled verdict. */
  lemma TieredVerdictUnique(p: Policy, req: Request, body: Option<JsonObject>, v: Verdict, w: Verdict)
    requires TieredVerdict(p, req, body, v) && TieredVerdict(p, req, body, w)
    ensures v == w
  {
    hide RuleMatches, EntryMatches, ScopeMatches, RuleVerdict, EntryVerdict, RestVerdict, Heuristic;
    assert forall i, j :: FirstMatchAt(p.rules, req, body, i) && FirstMatchAt(p.rules, req, body, j) ==> i == j;
    assert forall i, j :: FirstEntryAt(p.hosts, req, i) && FirstEntryAt(p.hosts, req, j) ==> i == j;
    assert forall i, j :: FirstScopeAt(p.hosts, req, i) && FirstScopeAt(p.hosts, req, j) ==> i == j;
  }

  lemma NoMatchIsHeuristic(rules: seq<Rule>, req: Request, body: Option<JsonObject>)
    requires NoMatch(rules, req, body)
    ensures Classify(rules, req, body) == Heuristic(body)
  {
    SkipPrefix(rules, [], req, body);
    assert rules + [] == rules;
  }

  // ---------------------------------------------------------------- Decide

  datatype Decision = Decision(app: string, pid: int, category: Category, action: Action, rule: string, matched: bool)

  predicate IsWebSocketUpgrade(h: Headers.Header) {
    && Text.EqualFold(Headers.Get(h, "Upgrade"), "websocket")
    && var parts := Text.Split(Headers.Get(h, "Connection"), ',');
       exists i :: 0 <= i < |parts| && Text.EqualFold(Text.Trim(parts[i]), "upgrade")
  }

  /** The request asks for a WebSocket: Upgrade is "websocket" and some item of the Connection list is
      "upgrade", in any letter case and with any white space around it. */
  ghost predicate AsksForWebSocket(h: Headers.Header) {
    && Text.Lower(Headers.Get(h, "Upgrade")) == "websocket"
    && exists item :: Text.Item(Headers.Get(h, "Connection"), item) && Text.Lower(item) == "upgrade"
  }

  lemma WebSocketIff(h: Headers.Header)
    ensures IsWebSocketUpgrade(h) <==> AsksForWebSocket(h)
  {
    hide Headers.Get, Text.Item, Text.Split, Text.Trim;
    assert Text.Lower("websocket") == "websocket" && Text.Lower("upgrade") == "upgrade";
    var c := Headers.Get(h, "Connection");
    if i :| 0 <= i < |Text.Split(c, ',')| && Text.EqualFold(Text.Trim(Text.Split(c, ',')[i]), "upgrade") {
      var item := Text.Trim(Text.Split(c, ',')[i]);
      Text.SplitItem(c, i);
      assert Text.Item(c, item) && Text.Lower(item) == "upgrade";
    }
    if item :| Text.Item(c, item) && Text.Lower(item) == "upgrade" {
      Text.ItemsOfSplit(c, item);
      var i :| 0 <= i < |Text.Split(c, ',')| && Text.Trim(Text.Split(c, ',')[i]) == item;
      assert Text.EqualFold(Text.Trim(Text.Split(c, ',')[i]), "upgrade");
    }
  }

  /** A WebSocket upgrade is never rerouted. `app` and `pid` come from attribution. */
  function Decide(rules: seq<Rule>, req: Request, app: string, pid: int, body: Option<JsonObject>): Decision {
    var v := Classify(rules, req, body);
    if IsWebSocketUpgrade(req.header) && v.action == Reroute then
      Decision(app, pid, v.category, Passthrough, "websocket-passthrough", v.matched)
    else Decision(app, pid, v.category, v.action, v.rule, v.matched)
  }

  /** The condition under which serve leaves the body unread. */
  predicate SettledWithoutBody(rules: seq<Rule>, d: Decision) {
    !BodyMatters(rules) && d.matched && d.action == Passthrough
  }

  /** The lazy body path never changes the decision: when the body-free decision settles it, every body
      gives the same one. */
  lemma LazyDecisionIsFinal(rules: seq<Rule>, req: Request, app: string, pid: int, body: Option<JsonObject>)
    requires SettledWithoutBody(rules, Decide(rules, req, app, pid, None))
    ensures Decide(rules, req, app, pid, body) == Decide(rules, req, app, pid, None)
  {
    hide Classify;
    BodyFreeVerdict(rules, req, None, body);
  }

  /** A WebSocket upgrade is never rerouted, wherever in the Connection list it stands. */
  lemma WebSocketNeverRerouted(rules: seq<Rule>, req: Request, app: string, pid: int, body: Option<JsonObject>,
                               pre: string, left: string, token: string, right: string, post: string)
    requires Headers.Get(req.header, "Connection") == pre + (left + token + right) + post
    requires (pre == "" || pre[|pre| - 1] == ',') && (post == "" || post[0] == ',')
    requires Text.AllSpace(left) && Text.AllSpace(right) && Text.Lower(token) == "upgrade"
    requires Text.Lower(Headers.Get(req.header, "Upgrade")) == "websocket"
    ensures Decide(rules, req, app, pid, body).action != Reroute
  {
    var c := Headers.Get(req.header, "Connection");
    UpgradeToken(token);
    assert ',' !in left + token + right;
    assert Text.ItemAt(c, pre, left, token, right, post);
    assert Text.Item(c, token);
    WebSocketIff(req.header);
  }

  lemma UpgradeToken(token: string)
    requires Text.Lower(token) == "upgrade"
    ensures ',' !in token && Text.Trimmed(token)
  {
    assert forall i :: 0 <= i < |token| ==> Text.Lower(token)[i] == Text.LowerChar(token[i]);
    assert Text.LowerChar(token[0]) == 'u' && Text.LowerChar(token[6]) == 'e';
    assert forall c :: c in "upgrade" ==> c != ',';
  }

  /** Every other request is decided as classified. */
  lemma DecideElse(rules: seq<Rule>, req: Request, app: string, pid: int, body: Option<JsonObject>)
    ensures var d, v := Decide(rules, req, app, pid, body), Classify(rules, req, body);
            && d.app == app && d.pid == pid && d.category == v.category && d.matched == v.matched
            && (if AsksForWebSocket(req.header) && v.action == Reroute then
                  d.action == Passthrough && d.rule == "websocket-passthrough"
                else d.action == v.action && d.rule == v.rule)
  {
    WebSocketIff(req.header);
    hide Classify, IsWebSocketUpgrade, AsksForWebSocket;
  }

  /** Which requests a host entry governs. One without action, category and scope governs none. */
  lemma EntryMatchesIff(h: InterceptHost, req: Request)
    ensures EntryMatches(h, req) <==>
      && (h.action != NoAction || h.category != NoCategory || h.paths != [] || h.methods != [])
      && HostMatch.Match(h.host, req.host)
      && (h.paths == [] || exists p :: p in h.paths && PathMatch.InLanguage(PathMatch.Tokens(p), req.url.path))
      && (h.methods == [] || exists m :: m in h.methods && Text.Lower(m) == Text.Lower(req.verb))
  {
    hide HostMatch.Match, PathMatch.InLanguage, PathMatch.Tokens, PathMatch.MatchAny, ContainsFold;
    PathMatch.MatchAnyIff(h.paths, req.url.path);
    AnyFold(h.methods, req.verb);
  }

  /** And what it decides for them: an entry that only scopes its host reroutes what is in scope. */
  lemma EntryVerdictSpelled(h: InterceptHost)
    ensures var v := EntryVerdict(h);
            && v.matched && v.category == h.category && v.rule == "host:" + h.host
            && (h.action != NoAction ==> v.action == h.action)
            && (h.action == NoAction && h.category == NoCategory ==>
                  v.action == if h.paths != [] || h.methods != [] then Reroute else Passthrough)
            && (h.action == NoAction && h.category == Other ==> v.action == Passthrough)
            && (h.action == NoAction && (h.category == LLM || h.category == MCP) ==> v.action == Reroute)
  {}

  /** Off its scope, a request passes through on a host that some entry scopes, unless a rule or another
      entry matches. */
  lemma OffScopePasses(p: Policy, req: Request, body: Option<JsonObject>, i: int)
    requires NoMatch(p.rules, req, body) && NoEntry(p.hosts, req)
    requires 0 <= i < |p.hosts| && (p.hosts[i].paths != [] || p.hosts[i].methods != [])
    requires HostMatch.Match(p.hosts[i].host, req.host)
    ensures var v := Classify(EffectiveRules(p), req, body);
            v.action == Passthrough && v.category == Other && v.matched
  {
    hide RuleMatches, Classify, EntryMatches, HostMatch.Match, EntryRules, ScopedHosts;
    CompilationPreservesMeaning(p, req, body);
    assert ScopeMatches(p.hosts[i], req);
    var r := RestRulesMeaning(p.hosts, req, body);
  }
}

/** Rule matching and the body heuristic (internal/classify/classify.go). */
module Classifier {
  import opened Common
  import opened Config
  import opened Http
  import HostMatch
  import PathMatch
  import Text

  /** A JSON object body: each top-level key with the text its value prints as. */
  type JsonObject = map<string, string>

  datatype Verdict = Verdict(category: Category, action: Action, rule: string, matched: bool)

  function DefaultAction(c: Category): Action { if c == LLM || c == MCP then Reroute else Passthrough }

  predicate HasAnyPrefix(path: string, prefixes: seq<string>) {
    exists i :: 0 <= i < |prefixes| && prefixes[i] <= path
  }

  predicate ContainsFold(list: seq<string>, s: string) {
    exists i :: 0 <= i < |list| && Text.EqualFold(list[i], s)
  }

  predicate BodyMatches(want: map<string, string>, body: Option<JsonObject>) {
    && body.Some?
    && forall k :: k in want ==> k in body.value && (want[k] == "" || want[k] == body.value[k])
  }

  /** Everything about a rule but its body clause. */
  predicate EnvelopeMatches(r: Rule, req: Request) {
    && (r.hosts != [] ==> HostMatch.MatchAny(r.hosts, req.host))
    && (r.pathPrefixes != [] ==> HasAnyPrefix(req.url.path, r.pathPrefixes))
    && (r.pathPatterns != [] ==> PathMatch.MatchAny(r.pathPatterns, req.url.path))
    && (r.methods != [] ==> ContainsFold(r.methods, req.verb))
  }

  predicate RuleMatches(r: Rule, req: Request, body: Option<JsonObject>) {
    EnvelopeMatches(r, req) && (r.matchBody != map[] ==> BodyMatches(r.matchBody, body))
  }

  function HeuristicCategory(body: Option<JsonObject>): Category {
    match body
    case None => Other
    case Some(b) =>
      if "jsonrpc" in b && b["jsonrpc"] == "2.0" && "method" in b then MCP
      else if "model" in b && ("messages" in b || "input" in b || "prompt" in b) then LLM
      else Other
  }

  function Heuristic(body: Option<JsonObject>): Verdict {
    var c := HeuristicCategory(body);
    Verdict(c, DefaultAction(c), "heuristic", false)
  }

  function RuleVerdict(r: Rule): Verdict {
    Verdict(r.category, if r.action == NoAction then DefaultAction(r.category) else r.action,
            if r.name == "" then "rule" else r.name, true)
  }

  /** The first matching rule wins; without one the heuristic applies. */
  function Classify(rules: seq<Rule>, req: Request, body: Option<JsonObject>): Verdict
    decreases |rules|
  {
    if rules == [] then Heuristic(body)
    else if RuleMatches(rules[0], req, body) then RuleVerdict(rules[0])
    else Classify(rules[1..], req, body)
  }

  ghost predicate FirstMatchAt(rules: seq<Rule>, req: Request, body: Option<JsonObject>, i: int) {
    && 0 <= i < |rules|
    && RuleMatches(rules[i], req, body)
    && forall j :: 0 <= j < i ==> !RuleMatches(rules[j], req, body)
  }

  ghost predicate NoMatch(rules: seq<Rule>, req: Request, body: Option<JsonObject>) {
    forall i :: 0 <= i < |rules| ==> !RuleMatches(rules[i], req, body)
  }

  lemma {:induction false} FirstMatchWins(rules: seq<Rule>, req: Request, body: Option<JsonObject>, i: int)
    requires FirstMatchAt(rules, req, body, i)
    ensures Classify(rules, req, body) == RuleVerdict(rules[i])
    decreases |rules|
  {
    hide RuleMatches;
    if i > 0 {
      assert forall j :: 0 <= j < |rules| - 1 ==> rules[1..][j] == rules[j + 1];
      FirstMatchWins(rules[1..], req, body, i - 1);
    }
  }

  /** Rules that cannot match may be put in front of or left out before the others. */
  lemma {:induction false} SkipPrefix(a: seq<Rule>, b: seq<Rule>, req: Request, body: Option<JsonObject>)
    requires NoMatch(a, req, body)
    ensures Classify(a + b, req, body) == Classify(b, req, body)
    decreases |a|
  {
    hide RuleMatches;
    if a == [] {
      assert a + b == b;
    } else {
      assert (a + b)[0] == a[0] && (a + b)[1..] == a[1..] + b;
      assert forall j :: 0 <= j < |a| - 1 ==> a[1..][j] == a[j + 1];
      SkipPrefix(a[1..], b, req, body);
    }
  }

  /** A match in `a` decides, whatever follows. */
  lemma {:induction false} PrefixDecides(a: seq<Rule>, b: seq<Rule>, req: Request, body: Option<JsonObject>)
    requires !NoMatch(a, req, body)
    ensures Classify(a + b, req, body) == Classify(a, req, body) && Classify(a, req, body).matched
    decreases |a|
  {
    hide RuleMatches;
    assert (a + b)[0] == a[0] && (a + b)[1..] == a[1..] + b;
    if !RuleMatches(a[0], req, body) {
      var i :| 0 <= i < |a| && RuleMatches(a[i], req, body);
      assert a[1..][i - 1] == a[i];
      PrefixDecides(a[1..], b, req, body);
    }
  }

  lemma {:induction false} MatchedIff(rules: seq<Rule>, req: Request, body: Option<JsonObject>)
    ensures Classify(rules, req, body).matched <==> !NoMatch(rules, req, body)
    decreases |rules|
  {
    hide RuleMatches;
    if rules != [] && !RuleMatches(rules[0], req, body) {
      MatchedIff(rules[1..], req, body);
      assert forall j :: 0 < j < |rules| ==> rules[j] == rules[1..][j - 1];
    }
  }

  // ---------------------------------------------------------------- the body

  predicate BodyMatters(rules: seq<Rule>) {
    exists i :: 0 <= i < |rules| && rules[i].matchBody != map[]
  }

  /** Without a body clause among the rules, a verdict reached by a rule is the same for every body. */
  lemma {:induction false} BodyFreeVerdict(rules: seq<Rule>, req: Request, b: Option<JsonObject>, c: Option<JsonObject>)
    requires !BodyMatters(rules)
    ensures Classify(rules, req, b).matched <==> Classify(rules, req, c).matched
    ensures Classify(rules, req, b).matched ==> Classify(rules, req, b) == Classify(rules, req, c)
    decreases |rules|
  {
    hide EnvelopeMatches;
    if rules != [] {
      assert forall j :: 0 <= j < |rules| - 1 ==> rules[1..][j] == rules[j + 1];
      BodyFreeVerdict(rules[1..], req, b, c);
    }
  }

  // ---------------------------------------------------------------- rules and verdicts, spelled out

  ghost predicate StartsWith(path: string, prefix: string) { exists rest: string :: path == prefix + rest }

  /** A rule matches when every clause it has does: some host, prefix, pattern or method of its list, and
      every key of its body clause. */
  lemma RuleMatchesIff(r: Rule, req: Request, body: Option<JsonObject>)
    ensures RuleMatches(r, req, body) <==>
      && (r.hosts == [] || exists h :: h in r.hosts && HostMatch.Match(h, req.host))
      && (r.pathPrefixes == [] || exists p :: p in r.pathPrefixes && StartsWith(req.url.path, p))
      && (r.pathPatterns == [] ||
          exists p :: p in r.pathPatterns && PathMatch.InLanguage(PathMatch.Tokens(p), req.url.path))
      && (r.methods == [] || exists m :: m in r.methods && Text.Lower(m) == Text.Lower(req.verb))
      && (forall k :: k in r.matchBody ==>
            body.Some? && k in body.value && (r.matchBody[k] == "" || r.matchBody[k] == body.value[k]))
  {
    hide HostMatch.Match, PathMatch.InLanguage, PathMatch.Tokens, PathMatch.MatchAny;
    PathMatch.MatchAnyIff(r.pathPatterns, req.url.path);
    AnyHost(r.hosts, req.host);
    AnyPrefix(req.url.path, r.pathPrefixes);
    AnyFold(r.methods, req.verb);
    hide HostMatch.MatchAny, HasAnyPrefix, ContainsFold, StartsWith;
    assert r.matchBody != map[] ==> exists k :: k in r.matchBody;
  }

  lemma AnyHost(patterns: seq<string>, host: string)
    ensures HostMatch.MatchAny(patterns, host) <==> exists h :: h in patterns && HostMatch.Match(h, host)
  {
    hide HostMatch.Match;
    if h :| h in patterns && HostMatch.Match(h, host) {
      var i :| 0 <= i < |patterns| && patterns[i] == h;
    }
  }

  lemma AnyPrefix(path: string, prefixes: seq<string>)
    ensures HasAnyPrefix(path, prefixes) <==> exists p :: p in prefixes && StartsWith(path, p)
  {
    if HasAnyPrefix(path, prefixes) {
      var i :| 0 <= i < |prefixes| && prefixes[i] <= path;
      assert path == prefixes[i] + path[|prefixes[i]|..];
      assert prefixes[i] in prefixes && StartsWith(path, prefixes[i]);
    }
    if p :| p in prefixes && StartsWith(path, p) {
      var i :| 0 <= i < |prefixes| && prefixes[i] == p;
    }
  }

  lemma AnyFold(list: seq<string>, s: string)
    ensures ContainsFold(list, s) <==> exists m :: m in list && Text.Lower(m) == Text.Lower(s)
  {
    if m :| m in list && Text.Lower(m) == Text.Lower(s) {
      var i :| 0 <= i < |list| && list[i] == m;
      assert Text.EqualFold(list[i], s);
    }
  }

  /** What a matching rule decides. An action left out follows from the category. */
  lemma RuleVerdictSpelled(r: Rule)
    ensures var v := RuleVerdict(r);
            && v.matched && v.category == r.category
            && v.rule == (if r.name != "" then r.name else "rule")
            && (r.action != NoAction ==> v.action == r.action)
            && (r.action == NoAction && (r.category == LLM || r.category == MCP) ==> v.action == Reroute)
            && (r.action == NoAction && (r.category == Other || r.category == NoCategory) ==> v.action == Passthrough)
  {}

  /** Without a matching rule, a request is rerouted exactly when its body is a JSON-RPC 2.0 call (an MCP
      request) or names a model and holds a prompt; else it passes through. */
  lemma UnmatchedVerdict(rules: seq<Rule>, req: Request, body: Option<JsonObject>)
    requires NoMatch(rules, req, body)
    ensures var v := Classify(rules, req, body);
            var rpc := body.Some? && "jsonrpc" in body.value && body.value["jsonrpc"] == "2.0" && "method" in body.value;
            var prompt := body.Some? && "model" in body.value
                          && ("messages" in body.value || "input" in body.value || "prompt" in body.value);
            && !v.matched && v.rule == "heuristic"
            && (v.action == Reroute <==> rpc || prompt) && (v.action == Passthrough <==> !rpc && !prompt)
            && (v.category == MCP <==> rpc) && (v.category == LLM <==> prompt && !rpc)
  {
    SkipPrefix(rules, [], req, body);
    assert rules + [] == rules;
  }
}

/** Host patterns (internal/hostmatch/hostmatch.go) and loop prevention: the clause of Validate that
    keeps the gateway out of the intercept set (internal/config/load.go), shouldMITM and the two places
    that derive the gateway host (internal/proxy/proxy.go, internal/router/router.go).
*/
module HostMatch {
  import opened Common
  import opened Text

  // ---------------------------------------------------------------- Normalize and Match

  function Normalize(host: string): string { StripPort(Lower(Trim(host))) }

  function StripPort(h: string): string {
    if h == "" then h
    else if h[0] == '[' then
      var i := Index(h, ']');
      if i < |h| then h[1..i] else h
    else if Count(h, ':') == 1 then h[..Index(h, ':')]
    else h
  }

  predicate Match(pattern: string, host: string) { Fits(Lower(Trim(pattern)), Normalize(host)) }

  /** Match, once pattern and host are in normal form. */
  predicate Fits(p: string, h: string) {
    if p == "" || h == "" then false
    else if "*." <= p then HasSuffix(h, "." + p[2..])
    else if "." <= p then h == p[1..] || HasSuffix(h, "." + p[1..])
    else h == p
  }

  predicate MatchAny(patterns: seq<string>, host: string) {
    exists i :: 0 <= i < |patterns| && Match(patterns[i], host)
  }

  // ---------------------------------------------------------------- fixed points

  /** Lower case, no surrounding space, no closed bracket in front, not exactly one colon. */
  predicate Canonical(h: string) {
    && h == Lower(h)
    && Trimmed(h)
    && (h != "" ==> if h[0] == '[' then ']' !in h else Count(h, ':') != 1)
  }

  /** Normalize is not idempotent: these are exactly the hosts it leaves alone. */
  lemma NormalizeFixedPoints(h: string)
    ensures Normalize(h) == h <==> Canonical(h)
  {
    TrimIsIdentityIff(h);
    var t := Lower(Trim(h));
    StripPortFixedPoints(t);
  }

  lemma StripPortFixedPoints(t: string)
    ensures |StripPort(t)| <= |t|
    ensures |StripPort(t)| == |t| ==> StripPort(t) == t
    ensures StripPort(t) == t <==> t != "" ==> if t[0] == '[' then ']' !in t else Count(t, ':') != 1
  {
    assert t[..|t|] == t;
    CountZero(t, ':');
  }

  // ---------------------------------------------------------------- authorities

  /** The host part of a URL, or a CONNECT target: name, brackets for IPv6, optional port. */
  datatype Authority = Authority(name: string, bracketed: bool, port: Option<string>) {
    function HostPort(): string {
      (if bracketed then "[" + name + "]" else name) + if port.Some? then ":" + port.value else ""
    }

    predicate WellFormed() {
      && name != ""
      && (forall c :: c in name ==> !IsSpace(c) && c != '[' && c != ']')
      && (!bracketed ==> ':' !in name)
      && (port.Some? ==> forall c :: c in port.value ==> '0' <= c <= '9')
    }
  }

  lemma StripBrackets(n: string, tail: string)
    requires ']' !in n
    ensures StripPort("[" + n + "]" + tail) == n
  {
    var h := "[" + n + "]" + tail;
    var k := |n| + 1;
    assert h[..k] == "[" + n;
    IndexAt(h, ']', k);
    assert h[1..k] == n;
  }

  lemma StripPlain(n: string, port: string)
    requires n != "" && n[0] != '[' && ':' !in n && ':' !in port
    ensures StripPort(n) == n && StripPort(n + (":" + port)) == n
  {
    var h := n + (":" + port);
    CountZero(n, ':');
    CountZero(port, ':');
    CountConcat(n, ":" + port, ':');
    CountConcat(":", port, ':');
    assert Count(":", ':') == 1 by { assert ":"[1..] == ""; }
    assert h[0] == n[0] && h[..|n|] == n;
    IndexAt(h, ':', |n|);
  }

  lemma LowerConcat(a: string, b: string)
    ensures Lower(a + b) == Lower(a) + Lower(b)
  {}

  lemma LowerKeepsOut(n: string, c: char)
    requires c !in n && LowerChar(c) == c && !('a' <= c <= 'z')
    ensures c !in Lower(n)
  {
    forall i | 0 <= i < |n| ensures Lower(n)[i] != c { assert n[i] in n; }
  }

  /** Brackets, port and letter case never matter: the normal form of an authority is its name. */
  lemma NormalizeAuthority(a: Authority)
    requires a.WellFormed()
    ensures Normalize(a.HostPort()) == Lower(a.name)
  {
    AuthorityTrimmed(a);
    hide Trim, StripPort;
    var n := a.name;
    TrimIsIdentityIff(a.HostPort());
    LowerKeepsOut(n, ']');
    var tail := if a.port.Some? then ":" + a.port.value else "";
    if a.bracketed {
      LowerConcat("[" + n + "]", tail);
      LowerConcat("[" + n, "]");
      LowerConcat("[", n);
      assert Lower("[") == "[" && Lower("]") == "]";
      StripBrackets(Lower(n), Lower(tail));
    } else {
      LowerKeepsOut(n, ':');
      assert n[0] in n && Lower(n)[0] != '[';
      LowerConcat(n, tail);
      if a.port.Some? {
        assert forall i :: 0 <= i < |tail| ==> tail[i] == ':' || tail[i] in a.port.value;
        assert Lower(tail) == tail;
        StripPlain(Lower(n), a.port.value);
      } else {
        assert Lower(n) + Lower(tail) == Lower(n);
        StripPlain(Lower(n), "");
      }
    }
  }

  lemma AuthorityTrimmed(a: Authority)
    requires a.WellFormed()
    ensures Trimmed(a.HostPort())
  {
    var s := a.HostPort();
    var tail := if a.port.Some? then ":" + a.port.value else "";
    assert forall c :: c in tail ==> !IsSpace(c);
    forall i | 0 <= i < |s| ensures !IsSpace(s[i]) {
      if a.bracketed { assert s == "[" + a.name + "]" + tail; } else { assert s == a.name + tail; }
    }
  }

  lemma LowerLower(s: string)
    ensures Lower(Lower(s)) == Lower(s)
  {}

  lemma NormalizeName(a: Authority)
    requires a.WellFormed()
    ensures Normalize(a.name) == Lower(a.name) <==> Count(a.name, ':') != 1
    ensures Normalize(Lower(a.name)) == Lower(a.name) <==> Count(a.name, ':') != 1
  {
    var n := a.name;
    assert n[0] in n && n[|n| - 1] in n;
    TrimIsIdentityIff(n);
    CountLower(n, ':');
    LowerLower(n);
    assert Lower(n)[0] != '[';
    StripPortFixedPoints(Lower(n));
    assert Trimmed(Lower(n));
    TrimIsIdentityIff(Lower(n));
  }

  lemma PlainFits(p: string, h: string)
    requires h != "" && p != "" && p[0] != '.' && !(|p| > 1 && p[0] == '*' && p[1] == '.')
    ensures Fits(p, h) <==> h == p
  {
    hide HasSuffix;
  }

  /** The documentation has the port stripped from both sides, but Match strips none from the pattern:
      an exact pattern with a port matches no well-formed host. */
  lemma PatternPortNeverMatches(pattern: string, a: Authority)
    requires a.WellFormed() && Count(a.name, ':') != 1
    requires Trimmed(pattern) && Count(pattern, ':') == 1 && pattern != "" && pattern[0] != '*' && pattern[0] != '.'
    ensures !Match(pattern, a.HostPort())
  {
    TrimIsIdentityIff(pattern);
    NormalizeAuthority(a);
    CountLower(pattern, ':');
    CountLower(a.name, ':');
    assert Lower(pattern)[0] == LowerChar(pattern[0]) && Lower(a.name) != "";
    PlainFits(Lower(pattern), Lower(a.name));
    hide Trim, StripPort, Count, Normalize, Fits;
  }

  /** `name` lies below `domain`. */
  ghost predicate Below(name: string, domain: string) { exists sub: string :: name == sub + ("." + domain) }

  lemma SuffixIsBelow(name: string, domain: string)
    ensures HasSuffix(name, "." + domain) <==> Below(name, domain)
  {
    if HasSuffix(name, "." + domain) {
      assert name == name[..|name| - |domain| - 1] + ("." + domain);
    }
  }

  lemma PatternTrims(front: string, domain: string)
    requires front == "*." || front == "." || front == ""
    requires forall c :: c in domain ==> !IsSpace(c)
    ensures Lower(Trim(front + domain)) == front + Lower(domain)
  {
    var p := front + domain;
    assert forall i :: 0 <= i < |p| ==> p[i] in front || p[i] in domain;
    assert Trimmed(p);
    TrimIsIdentityIff(p);
    LowerConcat(front, domain);
    assert Lower(front) == front;
  }

  lemma MatchFits(front: string, domain: string, a: Authority)
    requires a.WellFormed() && (front == "*." || front == "." || front == "")
    requires forall c :: c in domain ==> !IsSpace(c)
    ensures Match(front + domain, a.HostPort()) <==> Fits(front + Lower(domain), Lower(a.name))
  {
    NormalizeAuthority(a);
    PatternTrims(front, domain);
    hide Trim, Normalize, Fits;
  }

  lemma StarFits(d: string, h: string)
    requires h != ""
    ensures Fits("*." + d, h) <==> Below(h, d)
  {
    SuffixIsBelow(h, d);
    hide Below, HasSuffix;
    assert ("*." + d)[2..] == d;
  }

  lemma DotFits(d: string, h: string)
    requires h != ""
    ensures Fits("." + d, h) <==> h == d || Below(h, d)
  {
    SuffixIsBelow(h, d);
    hide Below, HasSuffix;
    var p := "." + d;
    assert p[0] == '.' && p[1..] == d;
  }

  /** "*.d" takes exactly the hosts below d, whatever the port, the brackets and the letter case. */
  lemma StarPattern(domain: string, a: Authority)
    requires a.WellFormed() && (forall c :: c in domain ==> !IsSpace(c))
    ensures Match("*." + domain, a.HostPort()) <==> Below(Lower(a.name), Lower(domain))
  {
    MatchFits("*.", domain, a);
    StarFits(Lower(domain), Lower(a.name));
    hide *;
  }

  /** ".d" takes d as well. */
  lemma DotPattern(domain: string, a: Authority)
    requires a.WellFormed() && (forall c :: c in domain ==> !IsSpace(c))
    ensures Match("." + domain, a.HostPort()) <==> Lower(a.name) == Lower(domain) || Below(Lower(a.name), Lower(domain))
  {
    MatchFits(".", domain, a);
    DotFits(Lower(domain), Lower(a.name));
    hide *;
  }

  /** A plain name takes itself. */
  lemma PlainPattern(name: string, a: Authority)
    requires a.WellFormed() && (forall c :: c in name ==> !IsSpace(c))
    requires name != "" && name[0] != '.' && !(|name| > 1 && name[0] == '*' && name[1] == '.')
    ensures Match(name, a.HostPort()) <==> Lower(a.name) == Lower(name)
  {
    var p := Lower(name);
    assert p[0] == LowerChar(name[0]) && (|p| > 1 ==> p[1] == LowerChar(name[1]));
    PlainFits(p, Lower(a.name));
    MatchFits("", name, a);
    hide *;
    assert "" + name == name && "" + p == p;
  }

  // ---------------------------------------------------------------- loop prevention

  /** What the proxy and the router keep of a configuration. */
  datatype Guard = Guard(interceptHosts: seq<string>, gatewayHost: string)

  /** InterceptHosts.Patterns: the entries that have a host. */
  function Patterns(hosts: seq<string>): seq<string> {
    if hosts == [] then []
    else (if hosts[0] != "" then [hosts[0]] else []) + Patterns(hosts[1..])
  }

  /** The loop-prevention clause of Validate, over Hostname() of the gateway URL. */
  predicate PassesLoopCheck(gateway: Option<Authority>, hosts: seq<string>) {
    gateway.Some? && gateway.value.name != "" ==> !MatchAny(Patterns(hosts), gateway.value.name)
  }

  /** newReloadable: the proxy's gateway host comes from Hostname(). */
  function ProxyGuard(gateway: Option<Authority>, hosts: seq<string>): Guard {
    Guard(Patterns(hosts), if gateway.Some? then Normalize(gateway.value.name) else "")
  }

  /** router.New: the router's gateway host comes from Host, port and all. */
  function RouterGatewayHost(gateway: Option<Authority>): string {
    if gateway.Some? then Normalize(gateway.value.HostPort()) else ""
  }

  predicate ShouldMITM(g: Guard, hostport: string) {
    var host := Normalize(hostport);
    && host != ""
    && !(g.gatewayHost != "" && host == g.gatewayHost)
    && MatchAny(g.interceptHosts, host)
  }

  /** The two separately derived gateway hosts coincide exactly when the name has not one colon. */
  lemma GatewayHostsCoincideIff(a: Authority, hosts: seq<string>)
    requires a.WellFormed()
    ensures ProxyGuard(Some(a), hosts).gatewayHost == RouterGatewayHost(Some(a)) <==> Count(a.name, ':') != 1
  {
    NormalizeAuthority(a);
    NormalizeName(a);
  }

  lemma SameNormalForm(patterns: seq<string>, h: string, k: string)
    requires Normalize(h) == Normalize(k)
    ensures MatchAny(patterns, h) <==> MatchAny(patterns, k)
  {
    forall i | 0 <= i < |patterns| ensures Match(patterns[i], h) <==> Match(patterns[i], k) {}
  }

  /** Loop prevention: once a configuration passes validation, no port, bracket or letter case makes a
      pattern match the gateway host. */
  lemma GatewayNeverMatched(gateway: Authority, hosts: seq<string>, target: Authority)
    requires gateway.WellFormed() && target.WellFormed() && Count(gateway.name, ':') != 1
    requires Lower(target.name) == Lower(gateway.name)
    requires PassesLoopCheck(Some(gateway), hosts)
    ensures !MatchAny(Patterns(hosts), target.HostPort())
  {
    NormalizeAuthority(target);
    NormalizeName(gateway);
    SameNormalForm(Patterns(hosts), target.HostPort(), gateway.name);
  }

  /** shouldMITM normalizes twice, so it says no for every gateway, even without its own gateway check. */
  lemma GatewayNeverIntercepted(gateway: Authority, hosts: seq<string>, target: Authority, anyHost: string)
    requires gateway.WellFormed() && target.WellFormed()
    requires Lower(target.name) == Lower(gateway.name)
    requires PassesLoopCheck(Some(gateway), hosts)
    ensures !ShouldMITM(Guard(Patterns(hosts), anyHost), target.HostPort())
  {
    NormalizeAuthority(target);
    NameInAnyCase(gateway);
    SameNormalForm(Patterns(hosts), Lower(target.name), gateway.name);
  }

  lemma NameInAnyCase(a: Authority)
    requires a.WellFormed()
    ensures Normalize(Lower(a.name)) == Normalize(a.name) == StripPort(Lower(a.name))
    ensures Trim(Lower(a.name)) == Lower(a.name) != "" && Lower(a.name)[0] != '['
  {
    var n := a.name;
    assert n[0] in n && n[|n| - 1] in n;
    TrimIsIdentityIff(n);
    TrimIsIdentityIff(Lower(n));
    LowerLower(n);
  }

  /** The colon condition is needed for the patterns. Hostname() already dropped the brackets of such a
      name and Normalize then cuts it at its colon, so it passes validation against its own text as a
      pattern; but that pattern matches it. */
  lemma OneColonNameSlipsThrough(a: Authority)
    requires a.WellFormed() && Count(a.name, ':') == 1
    ensures PassesLoopCheck(Some(a), [Lower(a.name)])
    ensures MatchAny(Patterns([Lower(a.name)]), a.HostPort())
  {
    var p := Lower(a.name);
    OneColonForms(a);
    FitsItself(p);
    ColonFitsNone(p, Normalize(a.name));
    hide Trim, Normalize, Fits, Count;
    SinglePattern(p, a.name);
    SinglePattern(p, a.HostPort());
  }

  lemma OneColonForms(a: Authority)
    requires a.WellFormed() && Count(a.name, ':') == 1
    ensures var p := Lower(a.name);
            p != "" && ':' in p && Trim(p) == p && Lower(p) == p && Normalize(a.HostPort()) == p && ':' !in Normalize(a.name)
  {
    NormalizeAuthority(a);
    NameInAnyCase(a);
    LowerLower(a.name);
    CountLower(a.name, ':');
    CountZero(Lower(a.name), ':');
    hide Trim, Count, Normalize;
  }

  lemma SinglePattern(p: string, host: string)
    requires p != ""
    ensures MatchAny(Patterns([p]), host) <==> Match(p, host)
  {
    hide Match;
    assert Patterns([p]) == [p] + Patterns([p][1..]) == [p];
    assert Match([p][0], host) <==> Match(p, host);
  }

  lemma FitsItself(p: string)
    requires p != ""
    ensures Fits(p, p)
  {
    if "*." <= p {
      assert p[1..] == "." + p[2..];
    } else if "." <= p {
      assert p == "." + p[1..];
    }
  }

  lemma SuffixHas(h: string, t: string, c: char)
    requires HasSuffix(h, t) && c in t
    ensures c in h
  {
    var i :| 0 <= i < |t| && t[i] == c;
    assert h[|h| - |t| + i] == c;
  }

  /** A pattern with a colon fits no host without one. */
  lemma ColonFitsNone(p: string, h: string)
    requires ':' in p && ':' !in h
    ensures !Fits(p, h)
  {
    var t := if "*." <= p then "." + p[2..] else "." + p[1..];
    assert "*." <= p || "." <= p ==> ':' in t by {
      var i :| 0 <= i < |p| && p[i] == ':';
      if "*." <= p { assert t[i - 1] == ':'; } else if "." <= p { assert t[i] == ':'; }
    }
    if HasSuffix(h, t) && ':' in t { SuffixHas(h, t, ':'); }
  }

  /** So validation keeps the gateway out of the intercept patterns, for every list of patterns and every
      port, bracket and letter case, exactly when its name has not exactly one colon. */
  lemma LoopPreventionIff(gateway: Authority)
    requires gateway.WellFormed()
    ensures (forall hosts, target: Authority ::
               target.WellFormed() && Lower(target.name) == Lower(gateway.name) && PassesLoopCheck(Some(gateway), hosts)
               ==> !MatchAny(Patterns(hosts), target.HostPort()))
       <==> Count(gateway.name, ':') != 1
  {
    if Count(gateway.name, ':') == 1 {
      OneColonNameSlipsThrough(gateway);
      assert gateway.WellFormed() && PassesLoopCheck(Some(gateway), [Lower(gateway.name)]);
    } else {
      forall hosts, target: Authority | target.WellFormed() && Lower(target.name) == Lower(gateway.name)
                                        && PassesLoopCheck(Some(gateway), hosts)
        ensures !MatchAny(Patterns(hosts), target.HostPort())
      {
        GatewayNeverMatched(gateway, hosts, target);
      }
    }
  }

  /** Such a gateway: "[a:1]" passes validation with the pattern "a:1", which matches it. */
  lemma OneColonExample()
    ensures var a := Authority("a:1", true, None);
            && a.WellFormed() && a.HostPort() == "[a:1]"
            && PassesLoopCheck(Some(a), ["a:1"]) && MatchAny(Patterns(["a:1"]), "[a:1]")
  {
    var n := "a:1";
    var a := Authority(n, true, None);
    assert n[1..] == ":1" && ":1"[1..] == "1" && "1"[1..] == "";
    assert Count("1", ':') == 0 && Count(":1", ':') == 1;
    assert forall c :: c in n ==> c == 'a' || c == ':' || c == '1';
    assert Lower(n) == n && a.HostPort() == "[a:1]";
    OneColonNameSlipsThrough(a);
  }

  // ---------------------------------------------------------------- which hosts are intercepted

  /** The hosts that a normal pattern `p` stands for, `h` being in normal form too. */
  ghost predicate StandsFor(p: string, h: string) {
    || (exists d :: p == "*." + d && Below(h, d))
    || (exists d :: p == "." + d && (h == d || Below(h, d)))
    || (p == h && (|p| > 1 ==> !(p[0] == '*' && p[1] == '.')) && (p != "" ==> p[0] != '.'))
  }

  /** A pattern as configured covers a name, letter case and surrounding white space aside. */
  ghost predicate Covers(pattern: string, name: string) {
    exists left, core, right ::
      CutAs(pattern, left, core, right) && core != "" && StandsFor(Lower(core), Lower(name))
  }

  predicate CutAs(s: string, left: string, core: string, right: string) {
    s == left + core + right && AllSpace(left) && AllSpace(right) && Trimmed(core)
  }

  lemma FitsIff(p: string, h: string)
    requires p != "" && h != ""
    ensures Fits(p, h) <==> StandsFor(p, h)
  {
    hide Below, HasSuffix;
    if |p| > 1 && p[0] == '*' && p[1] == '.' {
      var d := p[2..];
      assert p == "*." + d;
      StarFits(d, h);
      assert forall e :: p == "*." + e ==> e == d by {
        forall e | p == "*." + e ensures e == d { assert ("*." + e)[2..] == e; }
      }
    } else if p[0] == '.' {
      var d := p[1..];
      assert p == "." + d;
      DotFits(d, h);
      assert forall e :: p == "." + e ==> e == d by {
        forall e | p == "." + e ensures e == d { assert ("." + e)[1..] == e; }
      }
    } else {
      PlainFits(p, h);
      assert forall e :: p != "*." + e by {
        forall e ensures p != "*." + e { assert ("*." + e)[0] == '*' && ("*." + e)[1] == '.'; }
      }
      assert forall e :: p != "." + e by {
        forall e ensures p != "." + e { assert ("." + e)[0] == '.'; }
      }
    }
  }

  /** Match on any pattern, for a host whose normal form is `h`. */
  lemma MatchCovers(pattern: string, host: string, name: string)
    requires Normalize(host) == Lower(name) != ""
    ensures Match(pattern, host) <==> Covers(pattern, name)
  {
    var left, right := TrimCuts(pattern);
    var core := Trim(pattern);
    assert CutAs(pattern, left, core, right);
    if core != "" { FitsIff(Lower(core), Lower(name)); }
    hide Normalize, Fits, StandsFor, Trim;
    if Covers(pattern, name) {
      var l, c, r :| CutAs(pattern, l, c, r) && c != "" && StandsFor(Lower(c), Lower(name));
      TrimOf(l, c, r);
    }
    if Match(pattern, host) {
      assert core != "" by { if core == "" { EmptyFitsNone(Lower(core), Lower(name)); } }
    }
  }

  lemma EmptyFitsNone(p: string, h: string)
    ensures p == "" ==> !Fits(p, h)
  {}

  lemma {:induction false} PatternsOf(hosts: seq<string>, p: string)
    ensures p in Patterns(hosts) <==> p in hosts && p != ""
  {
    if hosts != [] {
      PatternsOf(hosts[1..], p);
      assert hosts == [hosts[0]] + hosts[1..];
    }
  }

  /** Some configured host covers the name. */
  ghost predicate AnyCovers(hosts: seq<string>, name: string) {
    exists i :: 0 <= i < |hosts| && Covers(hosts[i], name)
  }

  lemma MatchAnyCovers(hosts: seq<string>, host: string, name: string)
    requires Normalize(host) == Lower(name) != ""
    ensures MatchAny(Patterns(hosts), host) <==> AnyCovers(hosts, name)
  {
    var ps := Patterns(hosts);
    hide Match, Covers, Patterns, Normalize;
    if MatchAny(ps, host) {
      var j :| 0 <= j < |ps| && Match(ps[j], host);
      PatternsOf(hosts, ps[j]);
      MatchCovers(ps[j], host, name);
      var i :| 0 <= i < |hosts| && hosts[i] == ps[j];
      assert Covers(hosts[i], name);
    }
    if AnyCovers(hosts, name) {
      var i :| 0 <= i < |hosts| && Covers(hosts[i], name);
      BlankCoversNone(hosts[i], name);
      PatternsOf(hosts, hosts[i]);
      MatchCovers(hosts[i], host, name);
      var j :| 0 <= j < |ps| && ps[j] == hosts[i];
      assert Match(ps[j], host);
    }
  }

  lemma BlankCoversNone(pattern: string, name: string)
    ensures pattern == "" ==> !Covers(pattern, name)
  {}

  /** A CONNECT is decrypted exactly when its host is not the gateway and some configured host covers it:
      the name itself, "*.d" for the hosts below d, or ".d" for d as well. Port, brackets and letter case
      never matter. */
  lemma InterceptedIff(gateway: Option<Authority>, hosts: seq<string>, target: Authority)
    requires target.WellFormed() && Count(target.name, ':') != 1
    requires gateway.Some? ==> gateway.value.WellFormed() && Count(gateway.value.name, ':') != 1
    ensures ShouldMITM(ProxyGuard(gateway, hosts), target.HostPort()) <==>
              && (gateway.Some? ==> Lower(target.name) != Lower(gateway.value.name))
              && AnyCovers(hosts, target.name)
  {
    NormalizeAuthority(target);
    NormalizeName(target);
    if gateway.Some? { NormalizeName(gateway.value); }
    MatchAnyCovers(hosts, Lower(target.name), target.name);
    hide Normalize, Patterns, MatchAny, AnyCovers, Count;
  }

  /** A configuration passes the loop check exactly when no configured host covers its gateway. */
  lemma LoopCheckIff(gateway: Authority, hosts: seq<string>)
    requires gateway.WellFormed() && Count(gateway.name, ':') != 1
    ensures PassesLoopCheck(Some(gateway), hosts) <==> !AnyCovers(hosts, gateway.name)
  {
    NormalizeName(gateway);
    MatchAnyCovers(hosts, gateway.name, gateway.name);
    hide Normalize, Patterns, MatchAny, AnyCovers, Count;
  }
}

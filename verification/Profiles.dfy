/** The overlay of built-in profiles under the user's configuration (internal/profiles/profiles.go). */
module Profiles {
  import opened Common
  import opened Config
  import opened Http
  import opened Classifier
  import Pipeline

  // ---------------------------------------------------------------- the overlay

  predicate HasApp(apps: seq<App>, id: string) { exists i :: 0 <= i < |apps| && apps[i].id == id }

  predicate HasHost(hosts: seq<InterceptHost>, host: string) { exists i :: 0 <= i < |hosts| && hosts[i].host == host }

  predicate HasInject(inject: seq<InjectEntry>, app: string) { exists i :: 0 <= i < |inject| && inject[i].app == app }

  /** Built-in apps the user does not define; the built-ins are not checked against each other. */
  function NewApps(user: seq<App>, builtin: seq<App>): seq<App> {
    if builtin == [] then []
    else
      var last := builtin[|builtin| - 1];
      NewApps(user, builtin[..|builtin| - 1]) + if HasApp(user, last.id) then [] else [last]
  }

  /** Built-in hosts that neither the user nor an earlier built-in entry lists. */
  function NewHosts(user: seq<InterceptHost>, builtin: seq<InterceptHost>): seq<InterceptHost> {
    if builtin == [] then []
    else
      var before, last := NewHosts(user, builtin[..|builtin| - 1]), builtin[|builtin| - 1];
      before + if HasHost(user + before, last.host) then [] else [last]
  }

  function NewInject(user: seq<InjectEntry>, builtin: seq<InjectEntry>): seq<InjectEntry> {
    if builtin == [] then []
    else
      var last := builtin[|builtin| - 1];
      NewInject(user, builtin[..|builtin| - 1]) + if HasInject(user, last.app) then [] else [last]
  }

  function Overlay(user: Policy, builtin: Policy): Policy {
    Policy(user.apps + NewApps(user.apps, builtin.apps),
           user.hosts + NewHosts(user.hosts, builtin.hosts),
           user.rules + builtin.rules,
           user.inject + NewInject(user.inject, builtin.inject))
  }

  /** The configuration whose slices Apply appends to. */
  class Settings {
    var apps: seq<App>
    var hosts: seq<InterceptHost>
    var rules: seq<Rule>
    var inject: seq<InjectEntry>

    function View(): Policy
      reads this
    {
      Policy(apps, hosts, rules, inject)
    }

    /** Apply: merge apps, then intercept hosts, append the rules, merge inject entries. */
    method Apply(b: Policy)
      modifies this
      ensures View() == Overlay(old(View()), b)
    {
      AddApps(b.apps);
      AddHosts(b.hosts);
      rules := rules + b.rules;
      AddInject(b.inject);
    }

    method AddApps(builtin: seq<App>)
      modifies `apps
      ensures apps == old(apps) + NewApps(old(apps), builtin)
    {
      var have := set i | 0 <= i < |apps| :: apps[i].id;
      for i := 0 to |builtin|
        invariant apps == old(apps) + NewApps(old(apps), builtin[..i])
      {
        assert builtin[..i + 1][..i] == builtin[..i];
        if builtin[i].id !in have { apps := apps + [builtin[i]]; }
      }
      assert builtin[..|builtin|] == builtin;
    }

    method AddHosts(builtin: seq<InterceptHost>)
      modifies `hosts
      ensures hosts == old(hosts) + NewHosts(old(hosts), builtin)
    {
      var seen := set i | 0 <= i < |hosts| :: hosts[i].host;
      for i := 0 to |builtin|
        invariant hosts == old(hosts) + NewHosts(old(hosts), builtin[..i])
        invariant forall h :: h in seen <==> HasHost(hosts, h)
      {
        assert builtin[..i + 1][..i] == builtin[..i];
        var h := builtin[i];
        if h.host !in seen {
          HasHostSnoc(hosts, h);
          hosts := hosts + [h];
          seen := seen + {h.host};
        }
      }
      assert builtin[..|builtin|] == builtin;
    }

    method AddInject(builtin: seq<InjectEntry>)
      modifies `inject
      ensures inject == old(inject) + NewInject(old(inject), builtin)
    {
      var have := set i | 0 <= i < |inject| :: inject[i].app;
      for i := 0 to |builtin|
        invariant inject == old(inject) + NewInject(old(inject), builtin[..i])
      {
        assert builtin[..i + 1][..i] == builtin[..i];
        if builtin[i].app !in have { inject := inject + [builtin[i]]; }
      }
      assert builtin[..|builtin|] == builtin;
    }
  }

  lemma HasHostSnoc(hosts: seq<InterceptHost>, h: InterceptHost)
    ensures forall x :: HasHost(hosts + [h], x) <==> HasHost(hosts, x) || x == h.host
  {
    var all := hosts + [h];
    forall x ensures HasHost(all, x) <==> HasHost(hosts, x) || x == h.host {
      assert all[|hosts|] == h;
      if HasHost(hosts, x) {
        var i :| 0 <= i < |hosts| && hosts[i].host == x;
        assert all[i].host == x;
      }
    }
  }

  // ---------------------------------------------------------------- the user's policy wins

  lemma {:induction false} EntryRulesConcat(a: seq<InterceptHost>, b: seq<InterceptHost>)
    ensures Pipeline.EntryRules(a + b) == Pipeline.EntryRules(a) + Pipeline.EntryRules(b)
  {
    if b == [] {
      assert a + b == a;
    } else {
      var n := |b| - 1;
      assert (a + b)[..|a + b| - 1] == a + b[..n] && (a + b)[|a + b| - 1] == b[n];
      EntryRulesConcat(a, b[..n]);
    }
  }

  /** A request decided by a user rule keeps its verdict under the overlay. */
  lemma UserRuleWins(user: Policy, builtin: Policy, req: Request, body: Option<JsonObject>)
    requires !NoMatch(user.rules, req, body)
    ensures Classify(Pipeline.EffectiveRules(Overlay(user, builtin)), req, body)
         == Classify(Pipeline.EffectiveRules(user), req, body)
  {
    hide RuleMatches, Classify;
    var o := Overlay(user, builtin);
    var tail := Pipeline.EntryRules(user.hosts) + Pipeline.RestRules(Pipeline.ScopedHosts(user.hosts));
    var otail := builtin.rules + Pipeline.EntryRules(o.hosts) + Pipeline.RestRules(Pipeline.ScopedHosts(o.hosts));
    assert Pipeline.EffectiveRules(user) == user.rules + tail;
    assert Pipeline.EffectiveRules(o) == user.rules + otail;
    PrefixDecides(user.rules, tail, req, body);
    PrefixDecides(user.rules, otail, req, body);
  }

  /** A request decided by a user host entry keeps its verdict, provided no built-in rule matches it;
      when one does, the first such rule decides instead. */
  lemma UserEntryWins(user: Policy, builtin: Policy, req: Request, body: Option<JsonObject>)
    requires NoMatch(user.rules, req, body) && !Pipeline.NoEntry(user.hosts, req)
    ensures var v := Classify(Pipeline.EffectiveRules(Overlay(user, builtin)), req, body);
            if NoMatch(builtin.rules, req, body) then v == Classify(Pipeline.EffectiveRules(user), req, body)
            else v == Classify(builtin.rules, req, body)
  {
    hide RuleMatches, Classify, Pipeline.NoEntry, Pipeline.EntryRules, Pipeline.RestRules, Pipeline.ScopedHosts, NewHosts;
    var o, added := Overlay(user, builtin), NewHosts(user.hosts, builtin.hosts);
    var es := Pipeline.EntryRules(user.hosts);
    var rest := Pipeline.RestRules(Pipeline.ScopedHosts(user.hosts));
    var orest := Pipeline.EntryRules(added) + Pipeline.RestRules(Pipeline.ScopedHosts(o.hosts));
    var i := Pipeline.EntryRulesMeaning(user.hosts, req, body);
    EntryRulesConcat(user.hosts, added);
    assert Pipeline.EffectiveRules(user) == user.rules + (es + rest);
    assert Pipeline.EffectiveRules(o) == user.rules + (builtin.rules + (es + orest));
    SkipPrefix(user.rules, es + rest, req, body);
    SkipPrefix(user.rules, builtin.rules + (es + orest), req, body);
    PrefixDecides(es, rest, req, body);
    PrefixDecides(es, orest, req, body);
    if NoMatch(builtin.rules, req, body) {
      SkipPrefix(builtin.rules, es + orest, req, body);
    } else {
      PrefixDecides(builtin.rules, es + orest, req, body);
    }
  }

  /** The user's own definitions stay in front, and nothing is added beside one of them. */
  lemma {:induction false} AddedAppsAreNew(user: seq<App>, builtin: seq<App>)
    ensures forall i :: 0 <= i < |NewApps(user, builtin)| ==> !HasApp(user, NewApps(user, builtin)[i].id)
  {
    if builtin != [] { AddedAppsAreNew(user, builtin[..|builtin| - 1]); }
  }

  lemma {:induction false} AddedInjectIsNew(user: seq<InjectEntry>, builtin: seq<InjectEntry>)
    ensures forall i :: 0 <= i < |NewInject(user, builtin)| ==> !HasInject(user, NewInject(user, builtin)[i].app)
  {
    if builtin != [] { AddedInjectIsNew(user, builtin[..|builtin| - 1]); }
  }

  lemma HasHostConcat(a: seq<InterceptHost>, b: seq<InterceptHost>, host: string)
    ensures HasHost(a + b, host) <==> HasHost(a, host) || HasHost(b, host)
  {
    assert forall i :: 0 <= i < |a| ==> (a + b)[i] == a[i];
    assert forall i :: 0 <= i < |b| ==> (a + b)[|a| + i] == b[i];
  }

  /** Added hosts clash neither with the user's nor with each other. */
  ghost predicate Unlisted(user: seq<InterceptHost>, added: seq<InterceptHost>) {
    && (forall i :: 0 <= i < |added| ==> !HasHost(user, added[i].host))
    && (forall i, j :: 0 <= i < j < |added| ==> added[i].host != added[j].host)
  }

  lemma {:induction false} AddedHostsAreNew(user: seq<InterceptHost>, builtin: seq<InterceptHost>)
    ensures Unlisted(user, NewHosts(user, builtin))
  {
    if builtin != [] {
      var before, last := NewHosts(user, builtin[..|builtin| - 1]), builtin[|builtin| - 1];
      AddedHostsAreNew(user, builtin[..|builtin| - 1]);
      HasHostConcat(user, before, last.host);
      if HasHost(user + before, last.host) {
        assert NewHosts(user, builtin) == before;
      } else {
        UnlistedSnoc(user, before, last);
      }
    }
  }

  lemma UnlistedSnoc(user: seq<InterceptHost>, before: seq<InterceptHost>, last: InterceptHost)
    requires Unlisted(user, before) && !HasHost(user, last.host) && !HasHost(before, last.host)
    ensures Unlisted(user, before + [last])
  {}

  /** Every built-in definition is added unless the user has one of that id, app or host. */
  lemma {:induction false} AppAdded(user: seq<App>, builtin: seq<App>, a: App)
    ensures a in NewApps(user, builtin) <==> a in builtin && !HasApp(user, a.id)
  {
    if builtin != [] {
      var n := |builtin| - 1;
      assert builtin == builtin[..n] + [builtin[n]];
      AppAdded(user, builtin[..n], a);
    }
  }

  lemma {:induction false} InjectAdded(user: seq<InjectEntry>, builtin: seq<InjectEntry>, e: InjectEntry)
    ensures e in NewInject(user, builtin) <==> e in builtin && !HasInject(user, e.app)
  {
    if builtin != [] {
      var n := |builtin| - 1;
      assert builtin == builtin[..n] + [builtin[n]];
      InjectAdded(user, builtin[..n], e);
    }
  }

  /** Hosts, too: every built-in host name that the user does not list, and nothing but built-in entries. */
  lemma {:induction false} HostAdded(user: seq<InterceptHost>, builtin: seq<InterceptHost>, h: InterceptHost)
    requires h in NewHosts(user, builtin)
    ensures h in builtin && !HasHost(user, h.host)
  {
    var n := |builtin| - 1;
    assert builtin == builtin[..n] + [builtin[n]];
    var before := NewHosts(user, builtin[..n]);
    HasHostConcat(user, before, builtin[n].host);
    if h in before { HostAdded(user, builtin[..n], h); }
  }

  /** The overlay leaves the user's own definitions in front, and puts the built-in rules behind the user's. */
  lemma OverlayKeepsUser(user: Policy, builtin: Policy)
    ensures var o := Overlay(user, builtin);
            && user.apps <= o.apps && user.hosts <= o.hosts && user.inject <= o.inject
            && o.rules == user.rules + builtin.rules
  {}

  // ---------------------------------------------------------------- applying it twice

  lemma {:induction false} NewHostsCover(user: seq<InterceptHost>, builtin: seq<InterceptHost>, k: nat)
    requires k < |builtin|
    ensures HasHost(user + NewHosts(user, builtin), builtin[k].host)
  {
    var n := |builtin| - 1;
    var before, last := NewHosts(user, builtin[..n]), builtin[n];
    if k < n { NewHostsCover(user, builtin[..n], k); }
    if HasHost(user + before, last.host) {
      assert NewHosts(user, builtin) == before;
    } else {
      assert user + (before + [last]) == user + before + [last];
      HasHostSnoc(user + before, last);
    }
  }

  lemma {:induction false} NothingNew(user: seq<InterceptHost>, builtin: seq<InterceptHost>)
    requires forall i :: 0 <= i < |builtin| ==> HasHost(user, builtin[i].host)
    ensures NewHosts(user, builtin) == []
  {
    if builtin != [] {
      var n := |builtin| - 1;
      NothingNew(user, builtin[..n]);
      assert HasHost(user, builtin[n].host);
      assert user + [] == user;
    }
  }

  lemma {:induction false} NewAppsCover(user: seq<App>, builtin: seq<App>, k: nat)
    requires k < |builtin|
    ensures HasApp(user + NewApps(user, builtin), builtin[k].id)
  {
    var n := |builtin| - 1;
    var before, all := NewApps(user, builtin[..n]), user + NewApps(user, builtin);
    if k < n {
      NewAppsCover(user, builtin[..n], k);
      var i :| 0 <= i < |user + before| && (user + before)[i].id == builtin[k].id;
      assert all[i] == (user + before)[i];
    } else if HasApp(user, builtin[n].id) {
      var i :| 0 <= i < |user| && user[i].id == builtin[n].id;
      assert all[i] == user[i];
    } else {
      assert all[|all| - 1] == builtin[n];
    }
  }

  lemma {:induction false} NoNewApps(user: seq<App>, builtin: seq<App>)
    requires forall i :: 0 <= i < |builtin| ==> HasApp(user, builtin[i].id)
    ensures NewApps(user, builtin) == []
  {
    if builtin != [] { NoNewApps(user, builtin[..|builtin| - 1]); }
  }

  /** The rule list grows, yet a second overlay decides every request like the first. */
  lemma OverlayTwice(user: Policy, builtin: Policy, req: Request, body: Option<JsonObject>)
    ensures var once := Overlay(user, builtin);
            var twice := Overlay(once, builtin);
            && twice.hosts == once.hosts
            && twice.apps == once.apps
            && twice.rules == once.rules + builtin.rules
            && Classify(Pipeline.EffectiveRules(twice), req, body) == Classify(Pipeline.EffectiveRules(once), req, body)
  {
    hide RuleMatches, Classify, Pipeline.EntryRules, Pipeline.RestRules, Pipeline.ScopedHosts, NewHosts, NewApps;
    var once := Overlay(user, builtin);
    var twice := Overlay(once, builtin);
    forall k | 0 <= k < |builtin.hosts| ensures HasHost(once.hosts, builtin.hosts[k].host) {
      NewHostsCover(user.hosts, builtin.hosts, k);
    }
    NothingNew(once.hosts, builtin.hosts);
    assert twice.hosts == once.hosts;
    forall k | 0 <= k < |builtin.apps| ensures HasApp(once.apps, builtin.apps[k].id) {
      NewAppsCover(user.apps, builtin.apps, k);
    }
    NoNewApps(once.apps, builtin.apps);
    var b := builtin.rules;
    var tail := Pipeline.EntryRules(once.hosts) + Pipeline.RestRules(Pipeline.ScopedHosts(once.hosts));
    assert Pipeline.EffectiveRules(once) == once.rules + tail;
    assert Pipeline.EffectiveRules(twice) == once.rules + (b + tail);
    if NoMatch(once.rules, req, body) {
      assert NoMatch(b, req, body) by {
        assert forall i :: 0 <= i < |b| ==> once.rules[|user.rules| + i] == b[i];
      }
      SkipPrefix(once.rules, tail, req, body);
      SkipPrefix(once.rules, b + tail, req, body);
      SkipPrefix(b, tail, req, body);
    } else {
      PrefixDecides(once.rules, tail, req, body);
      PrefixDecides(once.rules, b + tail, req, body);
    }
  }
}

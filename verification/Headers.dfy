/** HTTP headers as net/http keeps them, and the removal of hop-by-hop headers
    (removeHopByHop in internal/proxy/forward.go; section 6.1 of RFC 7230).
*/
module Headers {
  import opened Common
  import opened Text

  /** Canonical name to values. */
  type Header = map<string, seq<string>>

  predicate IsTokenChar(c: char) {
    'a' <= c <= 'z' || 'A' <= c <= 'Z' || '0' <= c <= '9' || c in "!#$%&'*+-.^_`|~"
  }

  function UpperChar(c: char): char { if 'a' <= c <= 'z' then c - 'a' + 'A' else c }

  function CanonFrom(s: string, upper: bool): (r: string)
    ensures |r| == |s|
  {
    if s == "" then ""
    else [if upper then UpperChar(s[0]) else LowerChar(s[0])] + CanonFrom(s[1..], s[0] == '-')
  }

  /** textproto.CanonicalMIMEHeaderKey: a name with a non-token character is left as it is. */
  function Canon(name: string): string {
    if forall i :: 0 <= i < |name| ==> IsTokenChar(name[i]) then CanonFrom(name, true) else name
  }

  lemma {:induction false} CanonFromLower(s: string, upper: bool)
    ensures Lower(CanonFrom(s, upper)) == Lower(s)
  {
    if s != "" {
      var r := CanonFrom(s, upper);
      CanonFromLower(s[1..], s[0] == '-');
      assert Lower(r)[1..] == Lower(r[1..]) && Lower(s)[1..] == Lower(s[1..]);
      assert Lower(r) == [Lower(r)[0]] + Lower(r)[1..] && Lower(s) == [Lower(s)[0]] + Lower(s)[1..];
    }
  }

  /** Canonicalisation only changes letter case. */
  lemma CanonLower(name: string)
    ensures Lower(Canon(name)) == Lower(name)
  {
    CanonFromLower(name, true);
  }

  function Values(h: Header, name: string): seq<string> { if Canon(name) in h then h[Canon(name)] else [] }

  function Get(h: Header, name: string): string {
    if Values(h, name) == [] then "" else Values(h, name)[0]
  }

  /** Header.Set on a canonical key. */
  function Set(h: Header, name: string, v: string): Header { h[Canon(name) := [v]] }

  /** What net/http's parsing and Add and Set give. */
  predicate CanonicalKeys(h: Header) { forall k :: k in h ==> Canon(k) == k }

  predicate Skipped(k: string, skip: Option<string>) { skip.Some? && skip.value <= Lower(k) }

  function Copied(h: Header, skip: Option<string>): Header {
    map k | k in h && h[k] != [] && !Skipped(k, skip) :: h[k]
  }

  // ---------------------------------------------------------------- hop-by-hop

  const CONNECTION := "Connection"

  const FIXED: seq<string> := [
    "Connection", "Proxy-Connection", "Keep-Alive", "Proxy-Authenticate", "Proxy-Authorization",
    "Te", "Trailer", "Transfer-Encoding", "Upgrade"]

  function CanonAll(names: seq<string>): set<string> { set n | n in names && n != "" :: Canon(n) }

  function TrimAll(parts: seq<string>): seq<string> { seq(|parts|, i requires 0 <= i < |parts| => Trim(parts[i])) }

  /** The names listed in one Connection value. */
  function NamedIn(value: string): set<string> { CanonAll(TrimAll(Split(value, ','))) }

  /** Everything that Connection makes hop-by-hop. */
  function Named(values: seq<string>): set<string> {
    set v, name | v in values && name in NamedIn(v) :: name
  }

  function FixedKeys(): set<string> { CanonAll(FIXED) }

  function Stripped(h: Header): Header { h - (Named(Values(h, CONNECTION)) + FixedKeys()) }

  class HeaderMap {
    var m: Header

    constructor (h: Header)
      ensures m == h
    {
      m := h;
    }

    method Put(name: string, v: string)
      modifies this
      ensures m == Set(old(m), name, v)
    {
      m := m[Canon(name) := [v]];
    }

    method AddAll(name: string, vs: seq<string>)
      modifies this
      ensures m == if vs == [] then old(m) else old(m)[Canon(name) := Values(old(m), name) + vs]
    {
      for i := 0 to |vs|
        invariant m == if i == 0 then old(m) else old(m)[Canon(name) := Values(old(m), name) + vs[..i]]
      {
        assert Values(m, name) + [vs[i]] == Values(old(m), name) + vs[..i + 1];
        m := m[Canon(name) := Values(m, name) + [vs[i]]];
      }
      assert vs[..|vs|] == vs;
    }

    /** Copy a header field by field into an empty one (copyHeader; the gateway's loop, which skips the
        names that start with `skip`). Fields without a value are lost. */
    method CopyFields(src: Header, skip: Option<string>)
      requires m == map[] && CanonicalKeys(src)
      modifies this
      ensures m == Copied(src, skip)
    {
      var todo := src.Keys;
      while todo != {}
        invariant todo <= src.Keys
        invariant m == Copied(src - todo, skip)
        decreases todo
      {
        var k :| k in todo;
        CopiedStep(src, todo, k, skip);
        hide *;
        if !Skipped(k, skip) { AddField(k, src[k]); }
        todo := todo - {k};
      }
      assert src - {} == src;
    }

    method AddField(k: string, vs: seq<string>)
      requires Canon(k) == k && k !in m
      modifies this
      ensures m == if vs == [] then old(m) else old(m)[k := vs]
    {
      AddAll(k, vs);
      assert [] + vs == vs;
    }

    method Del(name: string)
      modifies this
      ensures m == old(m) - {Canon(name)}
    {
      m := m - {Canon(name)};
    }

    method DelAll(names: seq<string>)
      modifies this
      ensures m == old(m) - CanonAll(names)
    {
      for i := 0 to |names|
        invariant m == old(m) - CanonAll(names[..i])
      {
        CanonAllStep(names, i);
        if names[i] != "" { Del(names[i]); }
      }
      assert names[..|names|] == names;
    }

    /** removeHopByHop: the headers named in Connection first, then the fixed list. */
    method RemoveHopByHop()
      modifies this
      ensures m == Stripped(old(m))
    {
      var values := Values(m, CONNECTION);
      for i := 0 to |values|
        invariant m == old(m) - Named(values[..i])
      {
        NamedStep(values, i);
        DelAll(TrimAll(Split(values[i], ',')));
      }
      assert values[..|values|] == values;
      DelAll(FIXED);
    }
  }

  lemma CopiedStep(src: Header, todo: set<string>, k: string, skip: Option<string>)
    requires k in todo && todo <= src.Keys && CanonicalKeys(src)
    ensures Canon(k) == k && k !in Copied(src - todo, skip)
    ensures Copied(src - (todo - {k}), skip)
         == if Skipped(k, skip) || src[k] == [] then Copied(src - todo, skip) else Copied(src - todo, skip)[k := src[k]]
  {
    hide Skipped;
  }

  lemma CanonAllStep(names: seq<string>, i: nat)
    requires i < |names|
    ensures CanonAll(names[..i + 1]) == CanonAll(names[..i]) + if names[i] != "" then {Canon(names[i])} else {}
  {
    assert names[..i + 1] == names[..i] + [names[i]];
  }

  lemma NamedStep(values: seq<string>, i: nat)
    requires i < |values|
    ensures Named(values[..i + 1]) == Named(values[..i]) + NamedIn(values[i])
  {
    hide NamedIn;
    assert values[..i + 1] == values[..i] + [values[i]];
  }

  /** The removal touches nothing else: a header survives, unchanged, exactly when it is neither on the
      fixed list nor named by Connection. */
  lemma StrippedKeeps(h: Header, k: string)
    ensures k in Stripped(h) <==> k in h && k !in FixedKeys() && k !in Named(Values(h, CONNECTION))
    ensures k in Stripped(h) ==> Stripped(h)[k] == h[k]
  {}

  lemma ConnectionIsFixed()
    ensures Canon(CONNECTION) in FixedKeys()
  {
    assert FIXED[0] == CONNECTION;
  }

  /** A second removal finds nothing to do. */
  lemma StrippedIdempotent(h: Header)
    ensures Stripped(Stripped(h)) == Stripped(h)
  {
    ConnectionIsFixed();
    assert Values(Stripped(h), CONNECTION) == [];
  }

  // ---------------------------------------------------------------- names, spelled out

  predicate IsToken(name: string) { forall i :: 0 <= i < |name| ==> IsTokenChar(name[i]) }

  /** The canonical form: a letter at the start or after a hyphen is upper case, every other lower case. */
  lemma CanonAt(name: string, i: nat)
    requires IsToken(name) && i < |name|
    ensures Canon(name)[i] == if i == 0 || name[i - 1] == '-' then UpperChar(name[i]) else LowerChar(name[i])
  {
    CanonFromAt(name, true, i);
  }

  lemma {:induction false} CanonFromAt(s: string, upper: bool, i: nat)
    requires i < |s|
    ensures CanonFrom(s, upper)[i]
         == if (if i == 0 then upper else s[i - 1] == '-') then UpperChar(s[i]) else LowerChar(s[i])
  {
    if i > 0 { CanonFromAt(s[1..], s[0] == '-', i - 1); }
  }

  /** Two names are the same header exactly when they differ in letter case only. */
  lemma SameNameIff(a: string, b: string)
    requires IsToken(a) && IsToken(b)
    ensures Canon(a) == Canon(b) <==> Lower(a) == Lower(b)
  {
    CanonLower(a);
    CanonLower(b);
    hide Canon, IsToken;
    if Lower(a) == Lower(b) {
      assert |Canon(a)| == |a| == |Lower(a)| && |Canon(b)| == |b| == |Lower(b)|;
      forall i | 0 <= i < |a| ensures Canon(a)[i] == Canon(b)[i] { SameAt(a, b, i); }
    }
  }

  lemma SameAt(a: string, b: string, i: nat)
    requires IsToken(a) && IsToken(b) && Lower(a) == Lower(b) && i < |a| == |b|
    ensures i < |Canon(a)| && i < |Canon(b)| && Canon(a)[i] == Canon(b)[i]
  {
    CanonAt(a, i);
    CanonAt(b, i);
    assert |Canon(a)| == |a| && |Canon(b)| == |b|;
    assert Lower(a)[i] == LowerChar(a[i]) && Lower(b)[i] == LowerChar(b[i]);
    CaseChars(a[i], b[i]);
    if i > 0 {
      assert Lower(a)[i - 1] == LowerChar(a[i - 1]) && Lower(b)[i - 1] == LowerChar(b[i - 1]);
      CaseChars(a[i - 1], b[i - 1]);
    }
    hide *;
  }

  lemma CaseChars(c: char, d: char)
    requires LowerChar(c) == LowerChar(d)
    ensures UpperChar(c) == UpperChar(d) && (c == '-' <==> d == '-')
  {}

  predicate IsPlain(c: char) { 'a' <= c <= 'z' || 'A' <= c <= 'Z' || c == '-' }

  predicate WellCased(n: string, i: nat)
    requires i < |n|
  {
    IsPlain(n[i]) && n[i] == if i == 0 || n[i - 1] == '-' then UpperChar(n[i]) else LowerChar(n[i])
  }

  lemma IsCanonical(n: string)
    requires forall i :: 0 <= i < |n| ==> WellCased(n, i)
    ensures Canon(n) == n
  {
    forall i | 0 <= i < |n| ensures IsTokenChar(n[i]) {
      assert WellCased(n, i);
      assert '-' in "!#$%&'*+-.^_`|~";
    }
    assert |Canon(n)| == |n|;
    hide Canon;
    forall i | 0 <= i < |n| ensures Canon(n)[i] == n[i] {
      CanonAt(n, i);
      assert WellCased(n, i);
    }
  }

  /** The hop-by-hop headers of section 6.1 of RFC 7230 and its relatives, in canonical form. */
  predicate OnList(k: string) {
    || k == "Connection" || k == "Proxy-Connection" || k == "Keep-Alive"
    || k == "Proxy-Authenticate" || k == "Proxy-Authorization"
    || k == "Te" || k == "Trailer" || k == "Transfer-Encoding" || k == "Upgrade"
  }

  lemma OneWord(f: char, rest: string)
    requires 'A' <= f <= 'Z' && forall c :: c in rest ==> 'a' <= c <= 'z'
    ensures Canon([f] + rest) == [f] + rest
  {
    hide Canon;
    var n := [f] + rest;
    forall i | 0 <= i < |n| ensures WellCased(n, i) {
      if i > 0 { assert rest[i - 1] in rest; }
      if i > 1 { assert rest[i - 2] in rest; }
    }
    IsCanonical(n);
  }

  lemma TwoWords(f: char, rest: string, g: char, more: string)
    requires 'A' <= f <= 'Z' && forall c :: c in rest ==> 'a' <= c <= 'z'
    requires 'A' <= g <= 'Z' && forall c :: c in more ==> 'a' <= c <= 'z'
    ensures Canon([f] + rest + ['-', g] + more) == [f] + rest + ['-', g] + more
  {
    hide Canon;
    var n, k := [f] + rest + ['-', g] + more, |rest| + 1;
    forall i | 0 <= i < |n| ensures WellCased(n, i) {
      if 0 < i < k { assert n[i] == rest[i - 1] && rest[i - 1] in rest; }
      if 1 < i <= k { assert n[i - 1] == rest[i - 2] && rest[i - 2] in rest; }
      if i >= k + 2 { assert n[i] == more[i - k - 2] && more[i - k - 2] in more; }
      if i >= k + 3 { assert n[i - 1] == more[i - k - 3] && more[i - k - 3] in more; }
    }
    IsCanonical(n);
  }

  lemma NameConnection()
    ensures Canon("Connection") == "Connection"
  {
    hide Canon;
    OneWord('C', "onnection");
    assert "Connection" == ['C'] + "onnection";
  }

  lemma NamesKeepAndTe()
    ensures Canon("Keep-Alive") == "Keep-Alive"
    ensures Canon("Te") == "Te"
  {
    hide Canon;
    TwoWords('K', "eep", 'A', "live");
    assert "Keep-Alive" == ['K'] + "eep" + ['-', 'A'] + "live";
    OneWord('T', "e");
    assert "Te" == ['T'] + "e";
  }

  lemma NamesTrailerAndUpgrade()
    ensures Canon("Trailer") == "Trailer"
    ensures Canon("Upgrade") == "Upgrade"
  {
    hide Canon;
    OneWord('T', "railer");
    assert "Trailer" == ['T'] + "railer";
    OneWord('U', "pgrade");
    assert "Upgrade" == ['U'] + "pgrade";
  }

  lemma NamesProxyAndTransfer()
    ensures Canon("Proxy-Connection") == "Proxy-Connection"
    ensures Canon("Transfer-Encoding") == "Transfer-Encoding"
  {
    hide Canon;
    TwoWords('P', "roxy", 'C', "onnection");
    assert "Proxy-Connection" == ['P'] + "roxy" + ['-', 'C'] + "onnection";
    TwoWords('T', "ransfer", 'E', "ncoding");
    assert "Transfer-Encoding" == ['T'] + "ransfer" + ['-', 'E'] + "ncoding";
  }

  lemma NamesProxyAuth()
    ensures Canon("Proxy-Authenticate") == "Proxy-Authenticate"
    ensures Canon("Proxy-Authorization") == "Proxy-Authorization"
  {
    hide Canon;
    TwoWords('P', "roxy", 'A', "uthenticate");
    assert "Proxy-Authenticate" == ['P'] + "roxy" + ['-', 'A'] + "uthenticate";
    TwoWords('P', "roxy", 'A', "uthorization");
    assert "Proxy-Authorization" == ['P'] + "roxy" + ['-', 'A'] + "uthorization";
  }

  lemma FixedIsList(k: string)
    ensures k in FixedKeys() <==> OnList(k)
  {
    NameConnection();
    NamesKeepAndTe();
    NamesTrailerAndUpgrade();
    NamesProxyAndTransfer();
    NamesProxyAuth();
    hide Canon;
    assert FIXED[0] == "Connection" && FIXED[1] == "Proxy-Connection" && FIXED[2] == "Keep-Alive";
    assert FIXED[3] == "Proxy-Authenticate" && FIXED[4] == "Proxy-Authorization" && FIXED[5] == "Te";
    assert FIXED[6] == "Trailer" && FIXED[7] == "Transfer-Encoding" && FIXED[8] == "Upgrade";
  }

  /** Some Connection field has `k` as an item of its list, in any letter case. */
  ghost predicate NamedByConnection(h: Header, k: string) {
    && "Connection" in h
    && exists v, item :: v in h["Connection"] && Item(v, item) && item != "" && Canon(item) == k
  }

  lemma NamedIff(h: Header, k: string)
    ensures k in Named(Values(h, CONNECTION)) <==> NamedByConnection(h, k)
  {
    NameConnection();
    hide Canon, Item, Split, Trim;
    var vs := Values(h, CONNECTION);
    if k in Named(vs) {
      var v :| v in vs && k in NamedIn(v);
      var item :| item in TrimAll(Split(v, ',')) && item != "" && Canon(item) == k;
      var i :| 0 <= i < |Split(v, ',')| && Trim(Split(v, ',')[i]) == item;
      SplitItem(v, i);
    }
    if NamedByConnection(h, k) {
      var v, item :| v in vs && Item(v, item) && item != "" && Canon(item) == k;
      ItemsOfSplit(v, item);
      var i :| 0 <= i < |Split(v, ',')| && Trim(Split(v, ',')[i]) == item;
      assert TrimAll(Split(v, ','))[i] == item;
      assert k in NamedIn(v);
    }
  }

  /** What a hop-by-hop header is. */
  ghost predicate HopByHop(h: Header, k: string) { OnList(k) || NamedByConnection(h, k) }

  /** Exactly those are removed, and the rest is untouched. */
  lemma StrippedIff(h: Header, k: string)
    ensures k in Stripped(h) <==> k in h && !HopByHop(h, k)
    ensures k in Stripped(h) ==> Stripped(h)[k] == h[k]
  {
    FixedIsList(k);
    NamedIff(h, k);
    hide OnList, NamedByConnection, FixedKeys, Named, Values;
  }
}

/** Glob matching of request paths (internal/pathmatch/pathmatch.go).

    A pattern is read left to right, pairing stars greedily: "**" stands for any run of
    characters, a single "*" for any run without '/', every other character for itself.
    Strings are sequences of Go bytes, one `char` per byte.
*/
module PathMatch {
  import opened Text

  // ---------------------------------------------------------------- the language of a pattern

  datatype Token = Literal(c: char) | Segment | Anything

  predicate StartsDouble(pat: string) { |pat| > 1 && pat[0] == '*' && pat[1] == '*' }

  function Width(pat: string): (n: nat)
    requires pat != ""
    ensures 1 <= n <= |pat|
  {
    if StartsDouble(pat) then 2 else 1
  }

  function FirstToken(pat: string): Token
    requires pat != ""
  {
    if StartsDouble(pat) then Anything else if pat[0] == '*' then Segment else Literal(pat[0])
  }

  /** The reading of a pattern: the leftmost "**" is tokenised first. */
  function Tokens(pat: string): seq<Token>
  {
    if pat == "" then [] else [FirstToken(pat)] + Tokens(pat[Width(pat)..])
  }

  predicate TokenAccepts(t: Token, run: string) {
    match t
    case Literal(c) => run == [c]
    case Segment => '/' !in run
    case Anything => true
  }

  function Join(parts: seq<string>): string {
    if parts == [] then "" else parts[0] + Join(parts[1..])
  }

  ghost predicate Cuts(ts: seq<Token>, s: string, parts: seq<string>) {
    && |parts| == |ts|
    && Join(parts) == s
    && forall i :: 0 <= i < |ts| ==> TokenAccepts(ts[i], parts[i])
  }

  /** The declarative meaning: `s` can be cut into one piece per token, each piece accepted. */
  ghost predicate InLanguage(ts: seq<Token>, s: string) {
    exists parts :: Cuts(ts, s, parts)
  }

  /** The same language by recursion on the tokens; decidable, so that `Match` can call it. */
  predicate Accepts(ts: seq<Token>, s: string)
    decreases |ts|
  {
    if ts == [] then s == ""
    else exists k {:trigger FirstTakes(ts, s, k)} ::
           0 <= k <= |s| && FirstTakes(ts, s, k) && Accepts(ts[1..], s[k..])
  }

  /** The first token can stand for the first `k` characters. */
  predicate FirstTakes(ts: seq<Token>, s: string, k: int)
    requires ts != [] && 0 <= k <= |s|
  {
    TokenAccepts(ts[0], s[..k])
  }

  /** The subject splits at `k` between two token lists. */
  predicate SplitsAt(a: seq<Token>, b: seq<Token>, s: string, k: int)
    requires 0 <= k <= |s|
  {
    Accepts(a, s[..k]) && Accepts(b, s[k..])
  }

  lemma AcceptFirst(ts: seq<Token>, s: string, k: nat)
    requires ts != [] && k <= |s| && TokenAccepts(ts[0], s[..k]) && Accepts(ts[1..], s[k..])
    ensures Accepts(ts, s)
  {
    assert FirstTakes(ts, s, k);
  }

  lemma AcceptCut(ts: seq<Token>, s: string) returns (k: nat)
    requires ts != [] && Accepts(ts, s)
    ensures k <= |s| && TokenAccepts(ts[0], s[..k]) && Accepts(ts[1..], s[k..])
  {
    k :| 0 <= k <= |s| && FirstTakes(ts, s, k) && Accepts(ts[1..], s[k..]);
  }

  lemma {:induction false} AcceptsIsLanguage(ts: seq<Token>, s: string)
    ensures Accepts(ts, s) <==> InLanguage(ts, s)
    decreases |ts|
  {
    if ts == [] {
      if s == "" { assert Cuts(ts, s, []); }
    } else {
      hide Accepts;
      if Accepts(ts, s) {
        var k := AcceptCut(ts, s);
        AcceptsIsLanguage(ts[1..], s[k..]);
        var parts :| Cuts(ts[1..], s[k..], parts);
        var all := [s[..k]] + parts;
        assert all[1..] == parts;
        assert Cuts(ts, s, all);
      }
      if InLanguage(ts, s) {
        var parts :| Cuts(ts, s, parts);
        var k := |parts[0]|;
        assert s[..k] == parts[0] && s[k..] == Join(parts[1..]);
        assert Cuts(ts[1..], s[k..], parts[1..]);
        AcceptsIsLanguage(ts[1..], s[k..]);
        AcceptFirst(ts, s, k);
      }
    }
  }

  // ---------------------------------------------------------------- the matcher

  /** glob: the loop eats literals, a star tries every split and recurses on the rest. */
  method Glob(pat: string, s: string) returns (ok: bool)
    ensures ok <==> Accepts(Tokens(pat), s)
    ensures ok <==> InLanguage(Tokens(pat), s)
    decreases |pat|
  {
    AcceptsIsLanguage(Tokens(pat), s);
    hide Accepts, InLanguage;
    var p, t := pat, s;
    while |p| > 0
      invariant |p| <= |pat|
      invariant Accepts(Tokens(p), t) <==> Accepts(Tokens(pat), s)
      decreases |p|
    {
      if p[0] == '*' {
        if |p| > 1 && p[1] == '*' {
          var rest := p[2..];
          var i := 0;
          while true
            invariant 0 <= i <= |t|
            invariant forall j :: 0 <= j < i ==> !Accepts(Tokens(rest), t[j..])
            decreases |t| - i
          {
            var hit := Glob(rest, t[i..]);
            if hit {
              AcceptFirst(Tokens(p), t, i);
              return true;
            }
            if i >= |t| {
              Rejects(Tokens(p), t);
              return false;
            }
            i := i + 1;
          }
        }
        var rest := p[1..];
        var i := 0;
        while true
          invariant 0 <= i <= |t|
          invariant '/' !in t[..i]
          invariant forall j :: 0 <= j < i ==> !Accepts(Tokens(rest), t[j..])
          decreases |t| - i
        {
          var hit := Glob(rest, t[i..]);
          if hit {
            AcceptFirst(Tokens(p), t, i);
            return true;
          }
          if i >= |t| || t[i] == '/' {
            assert forall k :: i < k <= |t| ==> t[..k][i] == '/';
            Rejects(Tokens(p), t);
            return false;
          }
          i := i + 1;
        }
      }
      LiteralStep(p, t);
      if |t| == 0 || p[0] != t[0] { return false; }
      p, t := p[1..], t[1..];
    }
    EmptyPattern(t);
    return |t| == 0;
  }

  lemma EmptyPattern(s: string)
    ensures Accepts(Tokens(""), s) <==> s == ""
  {}

  lemma Rejects(ts: seq<Token>, s: string)
    requires ts != []
    requires forall k :: 0 <= k <= |s| ==> !(TokenAccepts(ts[0], s[..k]) && Accepts(ts[1..], s[k..]))
    ensures !Accepts(ts, s)
  {
    if Accepts(ts, s) { var k := AcceptCut(ts, s); }
  }

  lemma LiteralStep(p: string, t: string)
    requires p != "" && p[0] != '*'
    ensures Accepts(Tokens(p), t) <==> t != "" && p[0] == t[0] && Accepts(Tokens(p[1..]), t[1..])
  {
    LiteralTokenStep(p[0], Tokens(p[1..]), t);
  }

  /** Match: a pattern without a star is compared, every other one goes through glob. */
  predicate Match(pattern: string, path: string) {
    if '*' !in pattern then pattern == path else Accepts(Tokens(pattern), path)
  }

  predicate MatchAny(patterns: seq<string>, path: string) {
    exists i :: 0 <= i < |patterns| && Match(patterns[i], path)
  }

  /** MatchAny: some pattern of the list has the path in its language. */
  lemma MatchAnyIff(patterns: seq<string>, path: string)
    ensures MatchAny(patterns, path) <==> exists p :: p in patterns && InLanguage(Tokens(p), path)
  {
    hide Match, InLanguage;
    if MatchAny(patterns, path) {
      var i :| 0 <= i < |patterns| && Match(patterns[i], path);
      MatchIsLanguage(patterns[i], path);
    }
    if p :| p in patterns && InLanguage(Tokens(p), path) {
      MatchIsLanguage(p, path);
      var i :| 0 <= i < |patterns| && patterns[i] == p;
    }
  }

  /** A pattern without a star denotes exactly itself. */
  lemma {:induction false} StarFree(pat: string, s: string)
    requires '*' !in pat
    ensures Accepts(Tokens(pat), s) <==> pat == s
  {
    if pat != "" {
      LiteralStep(pat, s);
      if s != "" {
        StarFree(pat[1..], s[1..]);
        assert pat == [pat[0]] + pat[1..] && s == [s[0]] + s[1..];
      }
    }
  }

  /** The equality shortcut is sound: Match decides the declarative language on every input. */
  lemma MatchIsLanguage(pattern: string, path: string)
    ensures Match(pattern, path) <==> InLanguage(Tokens(pattern), path)
  {
    AcceptsIsLanguage(Tokens(pattern), path);
    if '*' !in pattern { StarFree(pattern, path); }
  }

  // ---------------------------------------------------------------- concatenation

  /** Cutting a cut: `s` at `i`, then its tail at `j`. */
  lemma CutCut(s: string, i: nat, j: nat)
    requires i + j <= |s|
    ensures s[..i + j][..i] == s[..i] && s[..i + j][i..] == s[i..][..j] && s[i..][j..] == s[i + j..]
  {}

  lemma {:induction false} ConcatTokensCut(a: seq<Token>, b: seq<Token>, s: string) returns (k: nat)
    requires Accepts(a + b, s)
    ensures k <= |s| && Accepts(a, s[..k]) && Accepts(b, s[k..])
    decreases |a|
  {
    if a == [] {
      assert a + b == b && s[0..] == s;
      return 0;
    }
    var ts := a + b;
    assert ts[1..] == a[1..] + b && ts[0] == a[0];
    var i := AcceptCut(ts, s);
    var j := ConcatTokensCut(a[1..], b, s[i..]);
    CutCut(s, i, j);
    AcceptFirst(a, s[..i + j], i);
    return i + j;
  }

  lemma {:induction false} ConcatTokensGlue(a: seq<Token>, b: seq<Token>, s: string, k: nat)
    requires k <= |s| && Accepts(a, s[..k]) && Accepts(b, s[k..])
    ensures Accepts(a + b, s)
    decreases |a|
  {
    if a == [] {
      assert a + b == b && s[k..] == s;
    } else {
      var p, ts := s[..k], a + b;
      var i := AcceptCut(a, p);
      CutCut(s, i, k - i);
      ConcatTokensGlue(a[1..], b, s[i..], k - i);
      assert ts[1..] == a[1..] + b && ts[0] == a[0];
      AcceptFirst(ts, s, i);
    }
  }

  /** Two token lists in a row accept exactly the subjects that split between them. */
  lemma ConcatTokens(a: seq<Token>, b: seq<Token>, s: string)
    ensures Accepts(a + b, s) <==> exists k :: 0 <= k <= |s| && SplitsAt(a, b, s, k)
  {
    if Accepts(a + b, s) {
      var k := ConcatTokensCut(a, b, s);
      assert SplitsAt(a, b, s, k);
    }
    if k :| 0 <= k <= |s| && SplitsAt(a, b, s, k) { ConcatTokensGlue(a, b, s, k); }
  }

  predicate Straddles(p: string, q: string) {
    p != "" && q != "" && p[|p| - 1] == '*' && q[0] == '*'
  }

  lemma Assoc<T>(a: seq<T>, b: seq<T>, c: seq<T>)
    ensures a + (b + c) == a + b + c
  {}

  lemma FirstOfConcat(p: string, q: string)
    requires p != "" && !Straddles(p, q)
    ensures FirstToken(p + q) == FirstToken(p) && Width(p + q) == Width(p)
    ensures (p + q)[Width(p)..] == p[Width(p)..] + q
    ensures !Straddles(p[Width(p)..], q)
  {
    var pq, w := p + q, Width(p);
    assert pq[0] == p[0];
    if |p| > 1 { assert pq[1] == p[1]; } else if q != "" { assert pq[1] == q[0]; }
    if w < |p| { assert p[w..][|p| - w - 1] == p[|p| - 1]; }
  }

  lemma {:induction false} TokensConcat(p: string, q: string)
    requires !Straddles(p, q)
    ensures Tokens(p + q) == Tokens(p) + Tokens(q)
    decreases |p|
  {
    if p == "" {
      assert p + q == q;
    } else {
      FirstOfConcat(p, q);
      TokensConcat(p[Width(p)..], q);
      Assoc([FirstToken(p)], Tokens(p[Width(p)..]), Tokens(q));
    }
  }

  /** Pattern concatenation splits the subject unless a star run straddles the seam... */
  lemma ConcatSplits(p: string, q: string, s: string)
    requires !Straddles(p, q)
    ensures Accepts(Tokens(p + q), s)
       <==> exists k :: 0 <= k <= |s| && SplitsAt(Tokens(p), Tokens(q), s, k)
  {
    TokensConcat(p, q);
    ConcatTokens(Tokens(p), Tokens(q), s);
  }

  lemma SplitJoins(p: string, q: string, s: string, k: nat)
    requires !Straddles(p, q) && k <= |s| && Accepts(Tokens(p), s[..k]) && Accepts(Tokens(q), s[k..])
    ensures Accepts(Tokens(p + q), s)
  {
    TokensConcat(p, q);
    ConcatTokensGlue(Tokens(p), Tokens(q), s, k);
  }

  lemma SplitCut(p: string, q: string, s: string) returns (k: nat)
    requires !Straddles(p, q) && Accepts(Tokens(p + q), s)
    ensures k <= |s| && Accepts(Tokens(p), s[..k]) && Accepts(Tokens(q), s[k..])
  {
    TokensConcat(p, q);
    hide *;
    k := ConcatTokensCut(Tokens(p), Tokens(q), s);
  }

  lemma DropDrop(s: string, i: nat, k: nat)
    requires i + k <= |s|
    ensures s[i..][k..] == s[i + k..]
  {}

  /** ...and there it fails: "*" then "*" cannot split "/", yet "**" accepts it. */
  lemma StraddlingSeamFails()
    ensures Straddles("*", "*")
    ensures Accepts(Tokens("*" + "*"), "/")
    ensures !exists k :: 0 <= k <= |"/"| && SplitsAt(Tokens("*"), Tokens("*"), "/", k)
  {
    assert "*" + "*" == Stars(2) && "*" == Stars(1);
    LongRunAcceptsAll(2, "/");
    LoneStar("/");
    assert "/"[..1] == "/" && "/"[0..] == "/";
  }

  // ---------------------------------------------------------------- star runs

  function Stars(n: nat): string { seq(n, _ => '*') }

  function LeadingStars(p: string): (n: nat)
    ensures n <= |p| && p[..n] == Stars(n)
    ensures n < |p| ==> p[n] != '*'
  {
    if p == "" || p[0] != '*' then 0 else 1 + LeadingStars(p[1..])
  }

  function RunToken(n: nat): Token { if n == 1 then Segment else Anything }

  /** The documented reading: a lone star is a segment run, any longer maximal run is "any run". */
  function RunTokens(pat: string): seq<Token>
    decreases |pat|
  {
    if pat == "" then []
    else if pat[0] == '*' then
      var n := LeadingStars(pat);
      [RunToken(n)] + RunTokens(pat[n..])
    else [Literal(pat[0])] + RunTokens(pat[1..])
  }

  lemma {:induction false} LongRunAcceptsAll(n: nat, s: string)
    requires n >= 2
    ensures Accepts(Tokens(Stars(n)), s)
    decreases n
  {
    var ts := Tokens(Stars(n));
    assert Stars(n)[2..] == Stars(n - 2);
    assert ts[0] == Anything && ts[1..] == Tokens(Stars(n - 2));
    assert s[..|s|] == s && s[|s|..] == "";
    if n == 3 { LoneStar(""); }
    if n > 3 { LongRunAcceptsAll(n - 2, ""); }
    AcceptFirst(ts, s, |s|);
  }

  /** Pairing stars greedily means the same as reading maximal star runs. */
  lemma {:induction false} StarRunMeaning(pat: string, s: string)
    ensures Accepts(Tokens(pat), s) <==> Accepts(RunTokens(pat), s)
    decreases |pat|
  {
    if pat == "" {
    } else if pat[0] == '*' {
      var n := LeadingStars(pat);
      assert pat == Stars(n) + pat[n..] && !Straddles(Stars(n), pat[n..]);
      forall t | |t| <= |s| ensures Accepts(Tokens(pat[n..]), t) <==> Accepts(RunTokens(pat[n..]), t) {
        StarRunMeaning(pat[n..], t);
      }
      StarRunStep(n, pat[n..], s);
    } else {
      LiteralStep(pat, s);
      LiteralTokenStep(pat[0], RunTokens(pat[1..]), s);
      if s != "" { StarRunMeaning(pat[1..], s[1..]); }
    }
  }

  lemma StarRunStep(n: nat, q: string, s: string)
    requires n > 0 && !Straddles(Stars(n), q)
    requires forall t :: |t| <= |s| ==> (Accepts(Tokens(q), t) <==> Accepts(RunTokens(q), t))
    ensures Accepts(Tokens(Stars(n) + q), s) <==> Accepts([RunToken(n)] + RunTokens(q), s)
  {
    hide Accepts, Tokens, RunTokens, Stars;
    var ts := [RunToken(n)] + RunTokens(q);
    assert ts[1..] == RunTokens(q);
    if Accepts(Tokens(Stars(n) + q), s) {
      TokensConcat(Stars(n), q);
      var k := ConcatTokensCut(Tokens(Stars(n)), Tokens(q), s);
      if n == 1 { LoneStar(s[..k]); }
      AcceptFirst(ts, s, k);
    }
    if Accepts(ts, s) {
      var k := AcceptCut(ts, s);
      if n == 1 { LoneStar(s[..k]); } else { LongRunAcceptsAll(n, s[..k]); }
      SplitJoins(Stars(n), q, s, k);
    }
  }

  lemma LiteralTokenStep(c: char, rest: seq<Token>, s: string)
    ensures Accepts([Literal(c)] + rest, s) <==> s != "" && s[0] == c && Accepts(rest, s[1..])
  {
    hide Accepts;
    var ts := [Literal(c)] + rest;
    assert ts[1..] == rest;
    if Accepts(ts, s) {
      var k := AcceptCut(ts, s);
      assert k == |s[..k]| == 1 && s[..k][0] == s[0];
    }
    if s != "" && s[0] == c && Accepts(rest, s[1..]) {
      assert s[..1] == [c];
      AcceptFirst(ts, s, 1);
    }
  }

  lemma LoneStar(s: string)
    ensures Accepts(Tokens(Stars(1)), s) <==> '/' !in s
  {
    assert Stars(1)[1..] == "" && Tokens(Stars(1)) == [Segment] && [Segment][1..] == [];
    assert s[..|s|] == s && s[|s|..] == "";
    if '/' !in s { AcceptFirst([Segment], s, |s|); }
    if Accepts([Segment], s) {
      var k := AcceptCut([Segment], s);
      assert s[..k] == s;
    }
  }

  /** Reading a pattern that starts with exactly `l` stars. */
  lemma RunTokensOf(l: nat, rest: string)
    requires rest != "" ==> rest[0] != '*'
    ensures RunTokens(Stars(l) + rest)
         == (if l == 0 then [] else [RunToken(l)]) + RunTokens(rest)
  {
    var a := Stars(l) + rest;
    LeadingStarsOf(a, l, rest);
    assert a[l..] == rest;
    if l == 0 { assert a == rest; }
  }

  lemma Regroup(a: string, b: string, c: string, d: string)
    ensures a + b + c + d == a + (b + (c + d))
  {}

  lemma RunTokensPast(l: nat, c: char, r: string, rest: string)
    requires c != '*'
    ensures RunTokens(Stars(l) + [c] + r + rest)
         == (if l == 0 then [] else [RunToken(l)]) + [Literal(c)] + RunTokens(r + rest)
  {
    var tail := [c] + (r + rest);
    Regroup(Stars(l), [c], r, rest);
    RunTokensOf(l, tail);
    assert tail[1..] == r + rest;
  }

  lemma {:induction false} LongRunsReadAlike(p: string, n: nat, m: nat, q: string)
    requires n >= 2 && m >= 2
    ensures RunTokens(p + (Stars(n) + q)) == RunTokens(p + (Stars(m) + q))
    decreases |p|
  {
    hide RunTokens;
    var l := LeadingStars(p);
    if l == |p| {
      assert p == Stars(l);
      StarsBefore(l, n, q);
      StarsBefore(l, m, q);
    } else {
      var c, r := p[l], p[l + 1..];
      assert p == Stars(l) + [c] + r;
      RunTokensPast(l, c, r, Stars(n) + q);
      RunTokensPast(l, c, r, Stars(m) + q);
      LongRunsReadAlike(r, n, m, q);
    }
  }

  lemma StarsBefore(l: nat, n: nat, q: string)
    requires n >= 2
    ensures RunTokens(Stars(l) + (Stars(n) + q)) == [Anything] + RunTokens(q[LeadingStars(q)..])
  {
    hide RunTokens;
    var e := LeadingStars(q);
    assert Stars(l) + (Stars(n) + q) == Stars(l + n + e) + q[e..];
    RunTokensOf(l + n + e, q[e..]);
  }

  lemma {:induction false} LeadingStarsOf(a: string, n: nat, rest: string)
    requires a == Stars(n) + rest
    ensures LeadingStars(a) == n + LeadingStars(rest)
    decreases n
  {
    if n == 0 {
      assert a == rest;
    } else {
      assert a[1..] == Stars(n - 1) + rest;
      LeadingStarsOf(a[1..], n - 1, rest);
    }
  }

  /** Any run of two or more stars, anywhere in a pattern, means the same as "**". */
  lemma LongRunIsDoubleStar(p: string, n: nat, q: string, s: string)
    requires n >= 2
    ensures Match(p + Stars(n) + q, s) <==> Match(p + "**" + q, s)
  {
    StarRunMeaning(p + Stars(n) + q, s);
    StarRunMeaning(p + "**" + q, s);
    assert "**" == Stars(2);
    LongRunsReadAlike(p, n, 2, q);
    assert p + Stars(n) + q == p + (Stars(n) + q) && p + Stars(2) + q == p + (Stars(2) + q);
    assert (p + Stars(n) + q)[|p|] == '*' && (p + "**" + q)[|p|] == '*';
  }

  /** What lies outside the stars of a seam: `p` takes the front, `q` the back, the stars the middle. */
  ghost predicate SplitsAround(p: string, q: string, s: string, i: int, j: int)
    requires 0 <= i <= j <= |s|
  {
    Accepts(Tokens(p), s[..i]) && Accepts(Tokens(q), s[j..])
  }

  /** A seam that a star run does straddle: the run swallows anything, slashes too, between what the two
      patterns demand outside it. With ConcatSplits this settles every concatenation. */
  lemma StraddledSeam(p: string, a: nat, b: nat, q: string, s: string)
    requires a > 0 && b > 0
    requires (p != "" ==> p[|p| - 1] != '*') && (q != "" ==> q[0] != '*')
    ensures Match((p + Stars(a)) + (Stars(b) + q), s)
       <==> exists i, j :: 0 <= i <= j <= |s| && SplitsAround(p, q, s, i, j)
  {
    hide Accepts, Tokens;
    assert (p + Stars(a)) + (Stars(b) + q) == p + Stars(a + b) + q && p + "**" + q == p + (Stars(2) + q);
    LongRunIsDoubleStar(p, a + b, q, s);
    var whole := p + (Stars(2) + q);
    assert whole[|p|] == '*';
    if Match(whole, s) {
      var i := SplitCut(p, Stars(2) + q, s);
      var k := SplitCut(Stars(2), q, s[i..]);
      DropDrop(s, i, k);
      assert SplitsAround(p, q, s, i, i + k);
    }
    if i, j :| 0 <= i <= j <= |s| && SplitsAround(p, q, s, i, j) {
      LongRunAcceptsAll(2, s[i..][..j - i]);
      assert s[i..][j - i..] == s[j..];
      SplitJoins(Stars(2), q, s[i..], j - i);
      SplitJoins(p, Stars(2) + q, s, i);
    }
  }

  /** A star-free prefix followed by "**" accepts exactly the paths below it. */
  lemma SubtreePattern(p: string, s: string)
    requires '*' !in p
    ensures Match(p + "**", s) <==> p <= s
  {
    assert (p + "**")[|p|] == '*' && "**" == Stars(2);
    ConcatSplits(p, "**", s);
    if Match(p + "**", s) {
      var k :| 0 <= k <= |s| && SplitsAt(Tokens(p), Tokens("**"), s, k);
      StarFree(p, s[..k]);
    }
    if p <= s {
      StarFree(p, s[..|p|]);
      LongRunAcceptsAll(2, s[|p|..]);
      SplitJoins(p, "**", s, |p|);
    }
  }

  // ---------------------------------------------------------------- segments

  /** The '/'-separated segments; one more than there are slashes. */
  function Segments(s: string): seq<string> { Split(s, '/') }

  predicate NoDoubleStar(pat: string) {
    forall i :: 0 <= i < |pat| - 1 ==> !(pat[i] == '*' && pat[i + 1] == '*')
  }

  /** Without "**" and without '/', a pattern never accepts a slash. */
  lemma {:induction false} NoSlashAccepted(pat: string, s: string)
    requires NoDoubleStar(pat) && '/' !in pat && Accepts(Tokens(pat), s)
    ensures '/' !in s
    decreases |pat|
  {
    if pat != "" {
      assert !(|pat| > 1 && pat[0] == '*' && pat[1] == '*');
      var k := AcceptCut(Tokens(pat), s);
      assert Tokens(pat)[1..] == Tokens(pat[1..]);
      assert forall i :: 0 <= i < |pat[1..]| ==> pat[1..][i] == pat[i + 1];
      NoSlashAccepted(pat[1..], s[k..]);
      assert s == s[..k] + s[k..];
    }
  }

  /** A slash-free pattern without "**", then '/', then the rest: the first slash is the seam. */
  lemma FirstSlashCut(a: string, b: string, s: string)
    requires NoDoubleStar(a) && '/' !in a && Accepts(Tokens(a + b), s) && b != "" && b[0] == '/'
    ensures var i := Index(s, '/'); i < |s| && Accepts(Tokens(a), s[..i]) && Accepts(Tokens(b[1..]), s[i + 1..])
  {
    hide Accepts, Tokens;
    TokensConcat(a, b);
    var k := ConcatTokensCut(Tokens(a), Tokens(b), s);
    LiteralStep(b, s[k..]);
    NoSlashAccepted(a, s[..k]);
    IndexAt(s, '/', k);
    assert s[k..][1..] == s[k + 1..];
  }

  lemma FirstSlashGlue(a: string, b: string, s: string, i: nat)
    requires b != "" && b[0] == '/' && i < |s| && s[i] == '/'
    requires Accepts(Tokens(a), s[..i]) && Accepts(Tokens(b[1..]), s[i + 1..])
    ensures Accepts(Tokens(a + b), s)
  {
    assert s[i..][1..] == s[i + 1..];
    LiteralStep(b, s[i..]);
    SplitJoins(a, b, s, i);
  }

  /** Same number of segments, and each segment of the path matches its counterpart. */
  predicate SegmentwiseAccepts(ps: seq<string>, ss: seq<string>) {
    |ps| == |ss| && forall i :: 0 <= i < |ps| ==> Accepts(Tokens(ps[i]), ss[i])
  }

  lemma SegmentwiseStep(ps: seq<string>, ss: seq<string>)
    requires ps != [] && ss != []
    ensures SegmentwiseAccepts(ps, ss) <==> Accepts(Tokens(ps[0]), ss[0]) && SegmentwiseAccepts(ps[1..], ss[1..])
  {
    var pt, st := ps[1..], ss[1..];
    if SegmentwiseAccepts(ps, ss) {
      forall i | 0 <= i < |pt| ensures Accepts(Tokens(pt[i]), st[i]) {
        assert pt[i] == ps[i + 1] && st[i] == ss[i + 1];
      }
    }
    if |ps| == |ss| && Accepts(Tokens(ps[0]), ss[0]) && SegmentwiseAccepts(pt, st) {
      forall i | 0 <= i < |ps| ensures Accepts(Tokens(ps[i]), ss[i]) {
        if i > 0 { assert ps[i] == pt[i - 1] && ss[i] == st[i - 1]; }
      }
    }
  }

  lemma SegmentwiseEnds(ps: seq<string>, ss: seq<string>)
    ensures ps == [] || ss == [] ==> (SegmentwiseAccepts(ps, ss) <==> ps == [] && ss == [])
  {}

  /** Segment theorem: without "**", a pattern accepts a path iff both have the same number of
      segments and each segment of the path matches its counterpart. */
  lemma {:induction false} SegmentTheorem(pat: string, s: string)
    requires NoDoubleStar(pat)
    ensures Accepts(Tokens(pat), s) <==> SegmentwiseAccepts(Segments(pat), Segments(s))
    decreases |pat|
  {
    hide Accepts, Tokens, Split, Index, SegmentwiseAccepts;
    SplitStep(pat, '/');
    SplitStep(s, '/');
    SegmentwiseStep(Segments(pat), Segments(s));
    SegmentwiseEnds(Segments(pat)[1..], Segments(s)[1..]);
    var i, j := Index(pat, '/'), Index(s, '/');
    if i == |pat| {
      assert pat[..i] == pat;
      if Accepts(Tokens(pat), s) { NoSlashAccepted(pat, s); }
    } else {
      SegmentTheoremStep(pat[..i], pat[i..], s);
      assert pat == pat[..i] + pat[i..] && pat[i..][1..] == pat[i + 1..];
      if j < |s| { SegmentTheorem(pat[i + 1..], s[j + 1..]); }
    }
  }

  lemma SegmentTheoremStep(a: string, b: string, s: string)
    requires NoDoubleStar(a) && '/' !in a && b != "" && b[0] == '/'
    ensures Accepts(Tokens(a + b), s)
       <==> var j := Index(s, '/'); j < |s| && Accepts(Tokens(a), s[..j]) && Accepts(Tokens(b[1..]), s[j + 1..])
  {
    hide Accepts, Tokens;
    var j := Index(s, '/');
    if Accepts(Tokens(a + b), s) { FirstSlashCut(a, b, s); }
    if j < |s| && Accepts(Tokens(a), s[..j]) && Accepts(Tokens(b[1..]), s[j + 1..]) {
      FirstSlashGlue(a, b, s, j);
    }
  }
}

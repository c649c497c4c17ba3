/** The few functions of Go's strings package that the policy code relies on, for ASCII text. */
module Text {

  function LowerChar(c: char): char { if 'A' <= c <= 'Z' then c - 'A' + 'a' else c }

  function Lower(s: string): (r: string)
    ensures |r| == |s|
    ensures forall i :: 0 <= i < |s| ==> r[i] == LowerChar(s[i])
  {
    seq(|s|, i requires 0 <= i < |s| => LowerChar(s[i]))
  }

  predicate EqualFold(a: string, b: string) { Lower(a) == Lower(b) }

  predicate IsSpace(c: char) { c == ' ' || c == '\t' || c == '\n' || c == '\r' || c == 11 as char || c == 12 as char }

  function TrimLeft(s: string): string {
    if s != "" && IsSpace(s[0]) then TrimLeft(s[1..]) else s
  }

  function TrimRight(s: string): string {
    if s != "" && IsSpace(s[|s| - 1]) then TrimRight(s[..|s| - 1]) else s
  }

  /** strings.TrimSpace. */
  function Trim(s: string): string { TrimRight(TrimLeft(s)) }

  predicate Trimmed(s: string) { s != "" ==> !IsSpace(s[0]) && !IsSpace(s[|s| - 1]) }

  lemma TrimIsIdentityIff(s: string)
    ensures |Trim(s)| <= |s|
    ensures |Trim(s)| == |s| ==> Trim(s) == s
    ensures Trim(s) == s <==> Trimmed(s)
  {
    TrimLeftShorter(s);
    TrimRightShorter(TrimLeft(s));
  }

  lemma {:induction false} TrimLeftShorter(s: string)
    ensures |TrimLeft(s)| <= |s|
    ensures |TrimLeft(s)| == |s| ==> TrimLeft(s) == s && (s != "" ==> !IsSpace(s[0]))
  {
    if s != "" && IsSpace(s[0]) { TrimLeftShorter(s[1..]); }
  }

  lemma {:induction false} TrimRightShorter(s: string)
    ensures |TrimRight(s)| <= |s|
    ensures |TrimRight(s)| == |s| ==> TrimRight(s) == s && (s != "" ==> !IsSpace(s[|s| - 1]))
  {
    if s != "" && IsSpace(s[|s| - 1]) { TrimRightShorter(s[..|s| - 1]); }
  }

  /** The first position of `c`, or |s|. */
  function Index(s: string, c: char): (i: nat)
    ensures i <= |s| && c !in s[..i]
    ensures i < |s| ==> s[i] == c
  {
    if s == "" || s[0] == c then 0
    else
      var i := 1 + Index(s[1..], c);
      assert s[..i] == [s[0]] + s[1..][..i - 1];
      i
  }

  lemma {:induction false} IndexAt(s: string, c: char, k: nat)
    requires k < |s| && s[k] == c && c !in s[..k]
    ensures Index(s, c) == k
  {
    if k > 0 {
      assert s[0] == s[..k][0] && s[1..][..k - 1] == s[..k][1..];
      IndexAt(s[1..], c, k - 1);
    }
  }

  function Count(s: string, c: char): nat {
    if s == "" then 0 else (if s[0] == c then 1 else 0) + Count(s[1..], c)
  }

  lemma {:induction false} CountConcat(a: string, b: string, c: char)
    ensures Count(a + b, c) == Count(a, c) + Count(b, c)
  {
    if a == "" {
      assert a + b == b;
    } else {
      assert (a + b)[1..] == a[1..] + b;
      CountConcat(a[1..], b, c);
    }
  }

  lemma {:induction false} CountZero(s: string, c: char)
    ensures Count(s, c) == 0 <==> c !in s
  {
    if s != "" {
      CountZero(s[1..], c);
      assert s == [s[0]] + s[1..];
    }
  }

  lemma {:induction false} CountLower(s: string, c: char)
    requires c == LowerChar(c) && !('a' <= c <= 'z')
    ensures Count(Lower(s), c) == Count(s, c)
  {
    if s != "" {
      assert Lower(s)[1..] == Lower(s[1..]);
      CountLower(s[1..], c);
    }
  }

  /** strings.Split for a one-byte separator. */
  function Split(s: string, sep: char): (parts: seq<string>)
    ensures |parts| >= 1
    decreases |s|
  {
    var i := Index(s, sep);
    if i == |s| then [s] else [s[..i]] + Split(s[i + 1..], sep)
  }

  lemma ConsTail<T>(x: T, rest: seq<T>)
    ensures ([x] + rest)[0] == x && ([x] + rest)[1..] == rest
  {}

  lemma SplitStep(s: string, sep: char)
    ensures var i := Index(s, sep);
            && (i == |s| ==> Split(s, sep) == [s])
            && (i < |s| ==> Split(s, sep)[0] == s[..i] && Split(s, sep)[1..] == Split(s[i + 1..], sep))
  {
    hide Index;
    var i := Index(s, sep);
    if i < |s| { ConsTail(s[..i], Split(s[i + 1..], sep)); }
  }

  predicate HasSuffix(s: string, t: string) { |t| <= |s| && s[|s| - |t|..] == t }

  // ---------------------------------------------------------------- what they mean

  /** Letter case, spelled out. */
  lemma LowerLetters()
    ensures Lower("ABCDEFGHIJKLMNOPQRSTUVWXYZ") == "abcdefghijklmnopqrstuvwxyz"
    ensures forall c :: !('A' <= c <= 'Z') ==> Lower([c]) == [c]
  {}

  /** White space: the blank, and the control characters from tab to carriage return. */
  lemma Spaces(c: char)
    ensures IsSpace(c) <==> c == ' ' || 9 <= c as int <= 13
  {}

  predicate AllSpace(s: string) { forall c :: c in s ==> IsSpace(c) }

  /** Trim cuts white space off both ends, and nothing else. */
  lemma TrimCuts(s: string) returns (left: string, right: string)
    ensures s == left + Trim(s) + right && AllSpace(left) && AllSpace(right) && Trimmed(Trim(s))
  {
    left := LeftCut(s);
    right := RightCut(TrimLeft(s));
    hide TrimLeft, TrimRight;
    var t := TrimLeft(s);
    if Trim(s) != "" { assert t[0] == Trim(s)[0]; }
    assert s == left + (Trim(s) + right);
  }

  lemma {:induction false} LeftCut(s: string) returns (left: string)
    ensures s == left + TrimLeft(s) && AllSpace(left)
    ensures TrimLeft(s) != "" ==> !IsSpace(TrimLeft(s)[0])
  {
    if s != "" && IsSpace(s[0]) {
      left := LeftCut(s[1..]);
      assert s == [s[0]] + s[1..];
      left := [s[0]] + left;
    } else {
      left := "";
    }
  }

  lemma {:induction false} RightCut(s: string) returns (right: string)
    ensures s == TrimRight(s) + right && AllSpace(right)
    ensures TrimRight(s) != "" ==> !IsSpace(TrimRight(s)[|TrimRight(s)| - 1])
  {
    if s != "" && IsSpace(s[|s| - 1]) {
      var n := |s| - 1;
      right := RightCut(s[..n]);
      assert s == s[..n] + [s[n]];
      right := right + [s[n]];
    } else {
      right := "";
    }
  }

  /** So the trimmed text is determined by what surrounds it. */
  lemma TrimOf(left: string, core: string, right: string)
    requires AllSpace(left) && AllSpace(right) && Trimmed(core)
    ensures Trim(left + core + right) == core
  {
    if core == "" {
      assert left + core + right == left + right;
      TrimLeftAll(left + right);
    } else {
      TrimLeftOf(left, core + right);
      TrimRightOf(core, right);
      assert left + core + right == left + (core + right);
    }
  }

  lemma {:induction false} TrimLeftAll(s: string)
    requires AllSpace(s)
    ensures TrimLeft(s) == ""
  {
    if s != "" { TrimLeftAll(s[1..]); }
  }

  lemma {:induction false} TrimLeftOf(left: string, t: string)
    requires AllSpace(left) && t != "" && !IsSpace(t[0])
    ensures TrimLeft(left + t) == t
  {
    if left == "" {
      assert left + t == t;
    } else {
      assert (left + t)[1..] == left[1..] + t;
      TrimLeftOf(left[1..], t);
    }
  }

  lemma {:induction false} TrimRightOf(t: string, right: string)
    requires AllSpace(right) && t != "" && !IsSpace(t[|t| - 1])
    ensures TrimRight(t + right) == t
  {
    if right == "" {
      assert t + right == t;
    } else {
      var n := |right| - 1;
      assert (t + right)[..|t + right| - 1] == t + right[..n];
      TrimRightOf(t, right[..n]);
    }
  }

  /** `piece` stands between separators, or the ends, of `s`. */
  predicate PieceAt(s: string, sep: char, pre: string, piece: string, post: string) {
    && s == pre + piece + post && sep !in piece
    && (pre == "" || pre[|pre| - 1] == sep) && (post == "" || post[0] == sep)
  }

  lemma PieceInRest(s: string, sep: char, k: nat, pre: string, piece: string, post: string)
    requires k < |s| && s[k] == sep && PieceAt(s[k + 1..], sep, pre, piece, post)
    ensures PieceAt(s, sep, s[..k + 1] + pre, piece, post)
  {
    assert s == s[..k + 1] + s[k + 1..];
    assert s == s[..k + 1] + pre + piece + post;
  }

  lemma PieceAfterFirst(s: string, sep: char, k: nat, pre: string, piece: string, post: string)
    requires PieceAt(s, sep, pre, piece, post) && pre != "" && k <= |s| && sep !in s[..k] && (k < |s| ==> s[k] == sep)
    ensures k < |s| && k < |pre| && PieceAt(s[k + 1..], sep, pre[k + 1..], piece, post)
  {
    var n := |pre| - 1;
    assert s[n] == sep;
    assert forall j :: 0 <= j < k ==> s[j] == s[..k][j] && s[..k][j] in s[..k];
    assert s[k + 1..] == pre[k + 1..] + piece + post;
  }

  lemma FirstPiece(s: string, sep: char, piece: string, post: string)
    requires PieceAt(s, sep, "", piece, post)
    ensures Index(s, sep) == |piece| && s[..|piece|] == piece
  {
    assert s == piece + post && s[..|piece|] == piece;
    if post == "" { assert piece == s && s[..|s|] == s; } else { IndexAt(s, sep, |piece|); }
  }

  /** Split yields such pieces... */
  lemma {:induction false} SplitPiece(s: string, sep: char, i: nat) returns (pre: string, post: string)
    requires i < |Split(s, sep)|
    ensures PieceAt(s, sep, pre, Split(s, sep)[i], post)
    decreases |s|
  {
    SplitStep(s, sep);
    hide Index, Split;
    var k := Index(s, sep);
    if k == |s| {
      assert s[..k] == s == "" + s + "";
      pre, post := "", "";
    } else if i == 0 {
      assert s == "" + s[..k] + s[k..];
      pre, post := "", s[k..];
    } else {
      pre, post := SplitPiece(s[k + 1..], sep, i - 1);
      hide PieceAt;
      PieceInRest(s, sep, k, pre, Split(s[k + 1..], sep)[i - 1], post);
      assert Split(s, sep)[i] == Split(s, sep)[1..][i - 1];
      pre := s[..k + 1] + pre;
    }
  }

  /** ...and all of them. */
  lemma {:induction false} PieceIsSplit(s: string, sep: char, pre: string, piece: string, post: string) returns (i: nat)
    requires PieceAt(s, sep, pre, piece, post)
    ensures i < |Split(s, sep)| && Split(s, sep)[i] == piece
    decreases |s|
  {
    SplitStep(s, sep);
    hide Index, Split, PieceAt;
    var k := Index(s, sep);
    if pre == "" {
      FirstPiece(s, sep, piece, post);
      assert s[..|s|] == s;
      i := 0;
    } else {
      PieceAfterFirst(s, sep, k, pre, piece, post);
      i := PieceIsSplit(s[k + 1..], sep, pre[k + 1..], piece, post);
      assert Split(s, sep)[i + 1] == Split(s, sep)[1..][i];
      i := i + 1;
    }
  }

  /** An item of a comma-separated list: what is left of a piece without the white space around it. */
  predicate ItemAt(s: string, pre: string, left: string, item: string, right: string, post: string) {
    && PieceAt(s, ',', pre, left + item + right, post)
    && AllSpace(left) && AllSpace(right) && Trimmed(item)
  }

  ghost predicate Item(s: string, item: string) { exists pre, left, right, post :: ItemAt(s, pre, left, item, right, post) }

  lemma SplitItem(s: string, i: nat)
    requires i < |Split(s, ',')|
    ensures Item(s, Trim(Split(s, ',')[i]))
  {
    hide Split, Trim;
    var pre, post := SplitPiece(s, ',', i);
    var left, right := TrimCuts(Split(s, ',')[i]);
    assert ItemAt(s, pre, left, Trim(Split(s, ',')[i]), right, post);
  }

  lemma ItemsOfSplit(s: string, item: string)
    ensures Item(s, item) <==> exists i :: 0 <= i < |Split(s, ',')| && Trim(Split(s, ',')[i]) == item
  {
    hide Split, Trim;
    if Item(s, item) {
      var pre, left, right, post :| ItemAt(s, pre, left, item, right, post);
      var i := PieceIsSplit(s, ',', pre, left + item + right, post);
      TrimOf(left, item, right);
    }
    if i :| 0 <= i < |Split(s, ',')| && Trim(Split(s, ',')[i]) == item {
      SplitItem(s, i);
    }
  }
}

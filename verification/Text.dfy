/** Strings as the browser and Node see them, reduced to what the runtime uses:
    white space, trimming, and counting of brackets.

    A string is a sequence of Unicode scalar values. Trimming is the one that
    `String.prototype.trim` does, with its full set of white space. */
module Text {

  /** The characters that `String.prototype.trim` and `\s` treat as white space. */
  predicate IsSpace(c: char) {
    || '\t' <= c <= '\r'
    || c == ' '
    || c == '\U{00A0}'
    || c == '\U{1680}'
    || '\U{2000}' <= c <= '\U{200A}'
    || c == '\U{2028}'
    || c == '\U{2029}'
    || c == '\U{202F}'
    || c == '\U{205F}'
    || c == '\U{3000}'
    || c == '\U{FEFF}'
  }

  predicate AllSpace(s: string) {
    forall i :: 0 <= i < |s| ==> IsSpace(s[i])
  }

  /** Neither end of `s` is white space. */
  predicate Trimmed(s: string) {
    s != "" ==> !IsSpace(s[0]) && !IsSpace(s[|s| - 1])
  }

  function TrimLeft(s: string): (r: string)
    ensures |r| <= |s|
  {
    if s != "" && IsSpace(s[0]) then TrimLeft(s[1..]) else s
  }

  function TrimRight(s: string): (r: string)
    ensures |r| <= |s|
  {
    if s != "" && IsSpace(s[|s| - 1]) then TrimRight(s[..|s| - 1]) else s
  }

  function Trim(s: string): (r: string)
    ensures |r| <= |s|
  {
    TrimRight(TrimLeft(s))
  }

  lemma {:induction false} TrimLeftDropsSpace(a: string, t: string)
    requires AllSpace(a)
    ensures TrimLeft(a + t) == TrimLeft(t)
  {
    if a == "" {
      assert a + t == t;
    } else {
      assert (a + t)[1..] == a[1..] + t;
      TrimLeftDropsSpace(a[1..], t);
    }
  }

  lemma {:induction false} TrimRightDropsSpace(t: string, b: string)
    requires AllSpace(b)
    ensures TrimRight(t + b) == TrimRight(t)
  {
    if b == "" {
      assert t + b == t;
    } else {
      assert (t + b)[..|t + b| - 1] == t + b[..|b| - 1];
      TrimRightDropsSpace(t, b[..|b| - 1]);
    }
  }

  /** Trimming is determined by its outcome: whatever stands between white space
      and is itself trimmed is what `Trim` returns. */
  lemma TrimUnique(a: string, t: string, b: string)
    requires AllSpace(a) && AllSpace(b) && Trimmed(t)
    ensures Trim(a + t + b) == t
  {
    assert a + t + b == a + (t + b);
    TrimLeftDropsSpace(a, t + b);
    if t == "" {
      assert t + b == b + "";
      TrimLeftDropsSpace(b, "");
    } else {
      assert TrimLeft(t + b) == t + b;
      TrimRightDropsSpace(t, b);
    }
  }

  lemma {:induction false} TrimLeftSplit(s: string) returns (a: string)
    ensures s == a + TrimLeft(s) && AllSpace(a)
    ensures TrimLeft(s) != "" ==> !IsSpace(TrimLeft(s)[0])
  {
    if s != "" && IsSpace(s[0]) {
      var rest := TrimLeftSplit(s[1..]);
      a := s[..1] + rest;
    } else {
      a := "";
    }
  }

  lemma {:induction false} TrimRightSplit(s: string) returns (b: string)
    ensures s == TrimRight(s) + b && AllSpace(b)
    ensures TrimRight(s) != "" ==> !IsSpace(TrimRight(s)[|TrimRight(s)| - 1])
  {
    if s != "" && IsSpace(s[|s| - 1]) {
      var front, last := s[..|s| - 1], s[|s| - 1..];
      var rest := TrimRightSplit(front);
      b := rest + last;
      assert AllSpace(b);
      assert TrimRight(s) == TrimRight(front);
      hide IsSpace, AllSpace, TrimRight;
      assert s == front + last;
      assert (TrimRight(front) + rest) + last == TrimRight(front) + b;
    } else {
      b := "";
    }
  }

  /** Every string is its trimmed core between two runs of white space. */
  lemma TrimSplit(s: string) returns (a: string, b: string)
    ensures s == a + Trim(s) + b
    ensures AllSpace(a) && AllSpace(b) && Trimmed(Trim(s))
  {
    a := TrimLeftSplit(s);
    b := TrimRightSplit(TrimLeft(s));
    assert Trim(s) != "" ==> Trim(s)[0] == TrimLeft(s)[0];
  }

  /** White space around a string does not change what trimming it yields. */
  lemma TrimPadded(a: string, s: string, b: string)
    requires AllSpace(a) && AllSpace(b)
    ensures Trim(a + s + b) == Trim(s)
  {
    var x, y := TrimSplit(s);
    assert a + s + b == (a + x) + Trim(s) + (y + b);
    TrimUnique(a + x, Trim(s), y + b);
  }

  /** Cutting a suffix at `k` is cutting the whole text at `i + k`. */
  lemma SuffixCut(s: string, i: nat, k: nat)
    requires i + k <= |s|
    ensures s[i..][..k] == s[i..i + k] && s[i..][k..] == s[i + k..]
  {
  }

  /** A slice that grows by one character at its end. */
  lemma SliceGrows(s: string, i: nat, j: nat)
    requires i <= j < |s|
    ensures s[i..j + 1] == s[i..j] + [s[j]] && s[i..j + 1][..j - i] == s[i..j] && s[i..j + 1][j - i] == s[j]
  {
    var t := s[i..j + 1];
    assert |t| == j - i + 1;
    assert forall k :: 0 <= k < j - i ==> t[k] == s[i + k] == s[i..j][k];
  }

  /** The two bracket families that the expression scanners count. */
  datatype Bracket = Round | Square

  function Open(k: Bracket): char { if k.Round? then '(' else '[' }

  function Close(k: Bracket): char { if k.Round? then ')' else ']' }

  function Delta(k: Bracket, c: char): int {
    if c == Open(k) then 1 else if c == Close(k) then -1 else 0
  }

  /** Opening minus closing brackets of one family in `s`. */
  function Depth(k: Bracket, s: string): int {
    if s == "" then 0 else Depth(k, s[..|s| - 1]) + Delta(k, s[|s| - 1])
  }

  lemma {:induction false} DepthConcat(k: Bracket, a: string, b: string)
    ensures Depth(k, a + b) == Depth(k, a) + Depth(k, b)
  {
    if b == "" {
      assert a + b == a;
    } else {
      assert (a + b)[..|a + b| - 1] == a + b[..|b| - 1];
      DepthConcat(k, a, b[..|b| - 1]);
    }
  }

  /** Every closing bracket of the family has its opening one, and none is left open. */
  predicate Nested(k: Bracket, s: string) {
    && Depth(k, s) == 0
    && forall i :: 0 <= i <= |s| ==> Depth(k, s[..i]) >= 0
  }

  lemma NestedConcat(k: Bracket, a: string, b: string)
    requires Nested(k, a) && Nested(k, b)
    ensures Nested(k, a + b)
  {
    DepthConcat(k, a, b);
    forall i | 0 <= i <= |a + b| ensures Depth(k, (a + b)[..i]) >= 0 {
      if i <= |a| {
        assert (a + b)[..i] == a[..i];
      } else {
        assert (a + b)[..i] == a + b[..i - |a|];
        DepthConcat(k, a, b[..i - |a|]);
      }
    }
  }

  lemma {:induction false} DepthWithout(k: Bracket, s: string)
    requires forall i :: 0 <= i < |s| ==> Delta(k, s[i]) == 0
    ensures Depth(k, s) == 0
  {
    if s != "" {
      DepthWithout(k, s[..|s| - 1]);
    }
  }

  lemma NestedWithout(k: Bracket, s: string)
    requires forall i :: 0 <= i < |s| ==> Delta(k, s[i]) == 0
    ensures Nested(k, s)
  {
    DepthWithout(k, s);
    forall i | 0 <= i <= |s| ensures Depth(k, s[..i]) >= 0 {
      DepthWithout(k, s[..i]);
    }
  }

  /** Inside a bracketed text the depth of the bracket's own family is one more
      than in the text alone. */
  lemma DepthInside(k: Bracket, outer: Bracket, s: string, i: nat)
    requires i <= |s|
    ensures var t := [Open(outer)] + s + [Close(outer)];
            Depth(k, t[..i + 1]) == Depth(k, s[..i]) + (if k == outer then 1 else 0)
  {
    var t := [Open(outer)] + s + [Close(outer)];
    assert t[..i + 1] == [Open(outer)] + s[..i];
    DepthConcat(k, [Open(outer)], s[..i]);
    assert Depth(k, [Open(outer)]) == Delta(k, Open(outer)) by {
      assert [Open(outer)][..0] == "";
    }
  }

  lemma NestedWrap(k: Bracket, outer: Bracket, s: string)
    requires Nested(k, s)
    ensures Nested(k, [Open(outer)] + s + [Close(outer)])
  {
    var t := [Open(outer)] + s + [Close(outer)];
    forall i | 0 <= i <= |t| ensures Depth(k, t[..i]) >= 0 && (i == |t| ==> Depth(k, t[..i]) == 0) {
      if i == 0 {
        assert t[..i] == "";
      } else if i < |t| {
        DepthInside(k, outer, s, i - 1);
      } else {
        DepthInside(k, outer, s, |s|);
        assert s[..|s|] == s && t[..i] == t;
        assert t[..|t| - 1] == t[..|s| + 1];
      }
    }
    assert t[..|t|] == t;
  }
}

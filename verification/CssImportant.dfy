/** Declarations of a pseudo-class rule: cut apart at the semicolons that count,
    trimmed, and each made important. */
module CssImportant {
  import opened Text
  import opened CssScan

  function Deeper(c: char, depth: nat): nat {
    if c == '(' then depth + 1 else if c == ')' && depth > 0 then depth - 1 else depth
  }

  /** `p` written in front of the first of `ds`. */
  function Prepend(p: string, ds: seq<string>): (r: seq<string>)
    requires ds != []
    ensures |r| == |ds|
  {
    [p + ds[0]] + ds[1..]
  }

  /** The pieces between the semicolons that stand outside strings, parentheses and
      unquoted urls. */
  function Cuts(glued: bool, depth: nat, s: string): (ds: seq<string>)
    ensures ds != []
    decreases |s|
  {
    if s == "" then [""]
    else
      match HeadOf(glued, s)
      case Whole(r) => Prepend(s[..r.len], Cuts(false, depth, s[r.len..]))
      case _ =>
        if s[0] == ';' && depth == 0 then [""] + Cuts(false, 0, s[1..])
        else Prepend(s[..1], Cuts(IsNameChar(s[0]), Deeper(s[0], depth), s[1..]))
  }

  /** How a text read by itself ends: with everything closed, with something left
      open, or not at all as one piece because a comment or a cut is in it. */
  datatype Ending = Broken | Ajar | Shut

  function EndingOf(glued: bool, depth: nat, s: string): Ending
    decreases |s|
  {
    if s == "" then (if depth == 0 then Shut else Ajar)
    else
      match HeadOf(glued, s)
      case Whole(r) => if r.closed then EndingOf(false, depth, s[r.len..]) else Ajar
      case Remark(_) => Broken
      case Single =>
        if s[0] == ';' && depth == 0 then Broken
        else EndingOf(IsNameChar(s[0]), Deeper(s[0], depth), s[1..])
  }

  function Join(ds: seq<string>): string {
    if ds == [] then "" else if |ds| == 1 then ds[0] else ds[0] + ";" + Join(ds[1..])
  }

  /** Each piece reads as one piece, and all but the last are complete. */
  ghost predicate Pieces(ds: seq<string>) {
    && (forall k :: 0 <= k < |ds| ==> EndingOf(false, 0, ds[k]) != Broken)
    && (forall k :: 0 <= k < |ds| - 1 ==> EndingOf(false, 0, ds[k]) == Shut)
  }

  function LowerAscii(s: string): string {
    seq(|s|, i requires 0 <= i < |s| => if 'A' <= s[i] <= 'Z' then (s[i] as int + 32) as char else s[i])
  }

  /** Ends in `!`, optional white space and `important` in any case. */
  predicate IsImportant(d: string) {
    && |d| > 9 && LowerAscii(d[|d| - 9..]) == "important"
    && var before := TrimRight(d[..|d| - 9]); before != "" && before[|before| - 1] == '!'
  }

  const IMPORTANT: string := " !important"

  function Mark(d: string): string { if IsImportant(d) then d else d + IMPORTANT }

  /** The non-empty trimmed pieces, marked. */
  function Marked(ds: seq<string>): (ms: seq<string>)
    ensures |ms| <= |ds|
  {
    if ds == [] then []
    else if Trim(ds[0]) == "" then Marked(ds[1..])
    else [Mark(Trim(ds[0]))] + Marked(ds[1..])
  }

  function Importantify(css: string): string {
    Join(Marked(Cuts(false, 0, Strip(false, css))))
  }

  // ------------------------------------------------------------ the loop

  /** The pieces of what follows while a string is open. */
  ghost function CutsInString(quote: char, depth: nat, s: string): (ds: seq<string>)
    ensures ds != []
  {
    var n := Until(quote, s).len;
    Prepend(s[..n], Cuts(false, depth, s[n..]))
  }

  ghost function CutsLeft(css: string, i: nat, quote: char, depth: nat): (ds: seq<string>)
    requires i <= |css|
    ensures ds != []
  {
    if quote == ' ' then Cuts(GluedAt(css, i), depth, css[i..]) else CutsInString(quote, depth, css[i..])
  }

  lemma PrependTwice(p: string, q: string, ds: seq<string>)
    requires ds != []
    ensures Prepend(p, Prepend(q, ds)) == Prepend(p + q, ds)
  {
    assert p + (q + ds[0]) == p + q + ds[0];
  }

  /** Reading from `i` to `next` moves text into the current piece. */
  ghost predicate Reads(css: string, i: nat, quote: char, depth: nat, next: nat, reg: char, depth': nat) {
    && i < next <= |css| && (reg == ' ' || IsQuote(reg))
    && CutsLeft(css, i, quote, depth) == Prepend(css[i..next], CutsLeft(css, next, reg, depth'))
  }

  lemma ReadsEscape(css: string, i: nat, quote: char, depth: nat)
    requires i + 1 < |css| && IsQuote(quote) && css[i] == '\\'
    ensures Reads(css, i, quote, depth, i + 2, quote, depth)
  {
    hide Cuts;
    var s := css[i..];
    SuffixCut(css, i, 2);
    var r := Until(quote, s[2..]);
    assert Until(quote, s).len == r.len + 2;
    hide Until;
    SuffixCut(s, 2, r.len);
    assert s[..r.len + 2] == s[..2] + s[2..][..r.len];
    PrependTwice(s[..2], s[2..][..r.len], Cuts(false, depth, s[r.len + 2..]));
  }

  lemma ReadsClosingQuote(css: string, i: nat, quote: char, depth: nat)
    requires i < |css| && IsQuote(quote) && css[i] == quote
    ensures Reads(css, i, quote, depth, i + 1, ' ', depth)
  {
    hide Cuts;
    var s := css[i..];
    SuffixCut(css, i, 1);
    assert Until(quote, s).len == 1;
  }

  lemma ReadsPlainInString(css: string, i: nat, quote: char, depth: nat)
    requires i < |css| && IsQuote(quote) && css[i] != quote && !(css[i] == '\\' && i + 1 < |css|)
    ensures Reads(css, i, quote, depth, i + 1, quote, depth)
  {
    hide Cuts;
    var s := css[i..];
    SuffixCut(css, i, 1);
    var r := Until(quote, s[1..]);
    assert Until(quote, s).len == r.len + 1;
    hide Until;
    SuffixCut(s, 1, r.len);
    assert s[..r.len + 1] == s[..1] + s[1..][..r.len];
    PrependTwice(s[..1], s[1..][..r.len], Cuts(false, depth, s[r.len + 1..]));
  }

  lemma ReadsInString(css: string, i: nat, quote: char, depth: nat)
    requires i < |css| && IsQuote(quote)
    ensures if css[i] == '\\' && i + 1 < |css| then Reads(css, i, quote, depth, i + 2, quote, depth)
            else Reads(css, i, quote, depth, i + 1, if css[i] == quote then ' ' else quote, depth)
  {
    hide Reads;
    if css[i] == '\\' && i + 1 < |css| {
      ReadsEscape(css, i, quote, depth);
    } else if css[i] == quote {
      ReadsClosingQuote(css, i, quote, depth);
    } else {
      ReadsPlainInString(css, i, quote, depth);
    }
  }

  lemma ReadsAtQuote(css: string, i: nat, depth: nat)
    requires i < |css| && IsQuote(css[i])
    ensures Reads(css, i, ' ', depth, i + 1, css[i], depth)
  {
    var s := css[i..];
    SuffixCut(css, i, 1);
    var r := Until(s[0], s[1..]);
    assert HeadOf(GluedAt(css, i), s) == Whole(Reach(r.len + 1, r.closed));
    hide HeadOf;
    hide Until;
    SuffixCut(s, 1, r.len);
    assert s[..r.len + 1] == s[..1] + s[1..][..r.len];
    PrependTwice(s[..1], s[1..][..r.len], Cuts(false, depth, s[r.len + 1..]));
  }

  lemma ReadsSingle(css: string, i: nat, depth: nat)
    requires i < |css| && !IsQuote(css[i]) && UrlEnd(css, i) == -1 && !(css[i] == ';' && depth == 0)
    ensures Reads(css, i, ' ', depth, i + 1, ' ', Deeper(css[i], depth))
  {
    SuffixCut(css, i, 1);
    assert !HeadOf(GluedAt(css, i), css[i..]).Whole?;
    hide HeadOf;
  }

  lemma CutsAtUrl(css: string, i: nat, depth: nat)
    requires i < |css| && UrlEnd(css, i) != -1
    ensures var end := UrlEnd(css, i);
            CutsLeft(css, i, ' ', depth) == Prepend(css[i..end], Cuts(false, depth, css[end..]))
  {
    var s, end := css[i..], UrlEnd(css, i);
    SuffixCut(css, i, end - i);
    var r := Until(')', s[4..]);
    assert HeadOf(GluedAt(css, i), s) == Whole(Reach(r.len + 4, r.closed));
    hide HeadOf;
    hide Until;
  }

  lemma UrlEndsInParen(css: string, i: nat)
    requires i < |css| && UrlEnd(css, i) != -1
    ensures UrlEnd(css, i) < |css| ==> !GluedAt(css, UrlEnd(css, i))
  {
    var end := UrlEnd(css, i);
    SuffixCut(css, i, 4);
    UntilEndsInEnd(')', css[i + 4..]);
    assert end < |css| ==> css[end - 1] == css[i + 4..][end - i - 5];
  }

  lemma ReadsUrl(css: string, i: nat, depth: nat)
    requires i < |css| && UrlEnd(css, i) != -1
    ensures Reads(css, i, ' ', depth, UrlEnd(css, i), ' ', depth)
  {
    hide UrlEnd;
    hide Cuts;
    CutsAtUrl(css, i, depth);
    UrlEndsInParen(css, i);
    CutsAfter(css, UrlEnd(css, i), depth);
  }

  lemma CutsAfter(css: string, i: nat, depth: nat)
    requires i <= |css| && (i < |css| ==> !GluedAt(css, i))
    ensures CutsLeft(css, i, ' ', depth) == Cuts(false, depth, css[i..])
  {
    assert i == |css| ==> css[i..] == "";
  }

  lemma CutHere(css: string, i: nat)
    requires i < |css| && css[i] == ';'
    ensures CutsLeft(css, i, ' ', 0) == [""] + CutsLeft(css, i + 1, ' ', 0)
  {
    SuffixCut(css, i, 1);
    assert HeadOf(GluedAt(css, i), css[i..]) == Single;
  }

  ghost predicate CutSoFar(css: string, decls: seq<string>, start: nat, i: nat, quote: char, depth: nat) {
    && start <= i <= |css| && (quote == ' ' || IsQuote(quote))
    && decls + Prepend(css[start..i], CutsLeft(css, i, quote, depth)) == Cuts(false, 0, css)
  }

  lemma CutStart(css: string)
    ensures CutSoFar(css, [], 0, 0, ' ', 0)
  {
    assert css[0..] == css && css[0..0] == "";
    var ds := Cuts(false, 0, css);
    assert "" + ds[0] == ds[0];
    assert Prepend("", ds) == ds;
  }

  lemma CutGrows(css: string, decls: seq<string>, start: nat, i: nat, quote: char, depth: nat,
                 next: nat, reg: char, depth': nat)
    requires CutSoFar(css, decls, start, i, quote, depth) && Reads(css, i, quote, depth, next, reg, depth')
    ensures CutSoFar(css, decls, start, next, reg, depth')
  {
    hide CutsLeft;
    assert css[start..next] == css[start..i] + css[i..next];
    PrependTwice(css[start..i], css[i..next], CutsLeft(css, next, reg, depth'));
  }

  lemma CutPushed(css: string, decls: seq<string>, start: nat, i: nat)
    requires CutSoFar(css, decls, start, i, ' ', 0) && i < |css| && css[i] == ';'
    ensures CutSoFar(css, decls + [css[start..i]], i + 1, i + 1, ' ', 0)
  {
    CutHere(css, i);
    hide CutsLeft;
    var rest := CutsLeft(css, i + 1, ' ', 0);
    assert css[start..i] + "" == css[start..i] && css[i + 1..i + 1] == "" && "" + rest[0] == rest[0];
    assert Prepend("", rest) == rest;
    assert Prepend(css[start..i], [""] + rest) == [css[start..i]] + rest;
    assert decls + ([css[start..i]] + rest) == decls + [css[start..i]] + rest;
  }

  lemma PrependNothing(p: string)
    ensures Prepend(p, [""]) == [p]
  {
    assert p + "" == p;
  }

  lemma NothingToCut(css: string, quote: char, depth: nat)
    ensures CutsLeft(css, |css|, quote, depth) == [""]
  {
    var s := css[|css|..];
    assert s == "" && s[..0] == "" && s[0..] == "";
    assert Cuts(GluedAt(css, |css|), depth, "") == [""] && Cuts(false, depth, "") == [""];
    assert Until(quote, s).len == 0;
    hide Cuts, Until;
    PrependNothing("");
  }

  lemma CutEnd(css: string, decls: seq<string>, start: nat, quote: char, depth: nat)
    requires CutSoFar(css, decls, start, |css|, quote, depth)
    ensures decls + [css[start..]] == Cuts(false, 0, css)
  {
    hide Cuts, CutsLeft, Prepend;
    NothingToCut(css, quote, depth);
    PrependNothing(css[start..]);
    assert css[start..|css|] == css[start..];
  }

  /** The splitting loop, with its `start`, `depth` and `quote` registers. */
  method SplitDeclarations(css: string) returns (decls: seq<string>)
    ensures decls == Cuts(false, 0, css)
  {
    hide *;
    decls := [];
    var start, depth: nat, i := 0, 0, 0;
    var quote: char := ' ';
    CutStart(css);
    while i < |css|
      invariant start <= i <= |css| && (quote == ' ' || IsQuote(quote))
      invariant CutSoFar(css, decls, start, i, quote, depth)
      decreases |css| - i
    {
      var c, next := css[i], i + 1;
      var reg, level := quote, depth;
      if quote != ' ' {
        ReadsInString(css, i, quote, depth);
        if c == '\\' && i + 1 < |css| {
          next := i + 2;
        } else if c == quote {
          reg := ' ';
        }
      } else if IsQuote(c) {
        ReadsAtQuote(css, i, depth);
        reg := c;
      } else if c == ';' && depth == 0 {
        CutPushed(css, decls, start, i);
        decls := decls + [css[start..i]];
        start, i := i + 1, i + 1;
        continue;
      } else {
        var end := ScanUnquotedUrl(css, i);
        if end != -1 {
          ReadsUrl(css, i, depth);
          next := end;
        } else {
          ReadsSingle(css, i, depth);
          level := Deeper(c, depth);
        }
      }
      CutGrows(css, decls, start, i, quote, depth, next, reg, level);
      i, quote, depth := next, reg, level;
    }
    CutEnd(css, decls, start, quote, depth);
    decls := decls + [css[start..]];
  }

  /** The whole rule rewriting: strip, split, then trim, drop the empty, mark, join. */
  method ImportantifyRule(css: string) returns (out: string)
    ensures out == Importantify(css)
  {
    var clean := StripComments(css);
    var decls := SplitDeclarations(clean);
    out := Join(Marked(decls));
  }
}

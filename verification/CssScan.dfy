/** The scanner that the pseudo-class rules go through: strings, urls and comments.

    The tokens follow sections 4.3.2, 4.3.5 and 4.3.6 of CSS Syntax Module Level 3; an
    unterminated one reaches to the end. */
module CssScan {
  import opened Text

  predicate IsQuote(c: char) { c == '"' || c == '\'' }

  /** A character that, standing before `url(`, makes it part of a longer name. */
  predicate IsNameChar(c: char) {
    'a' <= c <= 'z' || 'A' <= c <= 'Z' || '0' <= c <= '9' || c == '_' || c == '-'
  }

  predicate IsLetter(c: char, lower: char, upper: char) { c == lower || c == upper }

  predicate SaysUrl(s: string) {
    |s| >= 4 && IsLetter(s[0], 'u', 'U') && IsLetter(s[1], 'r', 'R') && IsLetter(s[2], 'l', 'L') && s[3] == '('
  }

  /** White space and then a quote. */
  predicate QuoteAhead(s: string) {
    s != "" && (IsQuote(s[0]) || (IsSpace(s[0]) && QuoteAhead(s[1..])))
  }

  /** How far a token reaches, and whether its own end was found. */
  datatype Reach = Reach(len: nat, closed: bool)

  /** The rest of a token that ends at the first `end` not preceded by a backslash. */
  function Until(end: char, s: string): (r: Reach)
    ensures r.len <= |s| && (r.closed ==> r.len > 0) && (!r.closed ==> r.len == |s|)
  {
    if s == "" then Reach(0, false)
    else if s[0] == '\\' then
      if |s| == 1 then Reach(1, false)
      else var r := Until(end, s[2..]); Reach(r.len + 2, r.closed)
    else if s[0] == end then Reach(1, true)
    else var r := Until(end, s[1..]); Reach(r.len + 1, r.closed)
  }

  /** The rest of a comment: through the first star followed by a slash. */
  function CommentRest(s: string): (n: nat)
    ensures n <= |s|
  {
    if |s| < 2 then |s|
    else if s[0] == '*' && s[1] == '/' then 2
    else 1 + CommentRest(s[1..])
  }

  /** What stands at the head of a text: a string or an unquoted url that is passed
      over as a whole, a comment, or a single character. */
  datatype Head = Whole(reach: Reach) | Remark(len: nat) | Single

  /** `glued` says that a name character stands just before `s`. */
  function HeadOf(glued: bool, s: string): (h: Head)
    requires s != ""
    ensures h.Whole? ==> 0 < h.reach.len <= |s| && (!h.reach.closed ==> h.reach.len == |s|)
    ensures h.Remark? ==> 2 <= h.len <= |s|
  {
    if IsQuote(s[0]) then
      var r := Until(s[0], s[1..]); Whole(Reach(r.len + 1, r.closed))
    else if s[0] == '/' && |s| > 1 && s[1] == '*' then
      Remark(2 + CommentRest(s[2..]))
    else if SaysUrl(s) && !glued && !QuoteAhead(s[4..]) then
      var r := Until(')', s[4..]); Whole(Reach(r.len + 4, r.closed))
    else Single
  }

  /** The text with every comment replaced by one space. */
  function Strip(glued: bool, s: string): string
    decreases |s|
  {
    if s == "" then ""
    else
      match HeadOf(glued, s)
      case Whole(r) => s[..r.len] + Strip(false, s[r.len..])
      case Remark(n) => " " + Strip(false, s[n..])
      case Single => [s[0]] + Strip(IsNameChar(s[0]), s[1..])
  }

  predicate GluedAt(css: string, i: nat)
    requires i <= |css|
  {
    i > 0 && IsNameChar(css[i - 1])
  }

  // ------------------------------------------------------------ the loops

  lemma {:induction false} QuoteAheadAfterSpace(s: string, k: nat)
    requires k <= |s| && AllSpace(s[..k])
    ensures QuoteAhead(s) == QuoteAhead(s[k..])
  {
    if k > 0 {
      assert s[..k][0] == s[0] && s[1..][..k - 1] == s[..k][1..] && s[1..][k - 1..] == s[k..];
      QuoteAheadAfterSpace(s[1..], k - 1);
    }
  }

  lemma {:induction false} UntilAfterSpace(s: string, k: nat)
    requires k <= |s| && AllSpace(s[..k])
    ensures Until(')', s) == var r := Until(')', s[k..]); Reach(r.len + k, r.closed)
  {
    if k > 0 {
      assert s[..k][0] == s[0] && s[1..][..k - 1] == s[..k][1..] && s[1..][k - 1..] == s[k..];
      UntilAfterSpace(s[1..], k - 1);
    }
  }

  /** The end of an url whose text starts at `from`: past its parenthesis, or the end
      of everything. */
  method FindUrlEnd(css: string, from: nat) returns (end: nat)
    requires from <= |css|
    ensures end == from + Until(')', css[from..]).len
  {
    var j := from;
    while j < |css| && css[j] != ')'
      invariant from <= j <= |css| + 1
      invariant from + Until(')', css[from..]).len ==
                if j <= |css| then j + Until(')', css[j..]).len else |css|
    {
      if css[j] == '\\' {
        assert j + 1 < |css| ==> css[j..][2..] == css[j + 2..];
        j := j + 1;
      } else {
        assert css[j..][1..] == css[j + 1..];
      }
      j := j + 1;
    }
    end := if j < |css| then j + 1 else |css|;
  }

  /** Where the unquoted url that starts at `i` ends, -1 when none starts there. */
  function UrlEnd(css: string, i: nat): (end: int)
    requires i < |css|
    ensures end == -1 || i < end <= |css|
  {
    var s := css[i..];
    if SaysUrl(s) && !GluedAt(css, i) && !QuoteAhead(s[4..])
    then i + 4 + Until(')', s[4..]).len else -1
  }

  method ScanUnquotedUrl(css: string, i: nat) returns (end: int)
    requires i < |css|
    ensures end == UrlEnd(css, i)
  {
    hide Until;
    hide QuoteAhead;
    hide IsSpace;
    if |css| - i < 4 || !SaysUrl(css[i..i + 4]) || GluedAt(css, i) {
      return -1;
    }
    ghost var s := css[i + 4..];
    SuffixCut(css, i, 4);
    var j := i + 4;
    while j < |css| && IsSpace(css[j])
      invariant i + 4 <= j <= |css|
      invariant AllSpace(css[i + 4..j])
    {
      assert css[i + 4..j + 1] == css[i + 4..j] + [css[j]];
      j := j + 1;
    }
    SuffixCut(css, i + 4, j - i - 4);
    QuoteAheadAfterSpace(s, j - i - 4);
    UntilAfterSpace(s, j - i - 4);
    QuoteNext(css[j..]);
    if j < |css| && IsQuote(css[j]) {
      return -1;
    }
    end := FindUrlEnd(css, j);
  }

  lemma QuoteNext(s: string)
    requires s == "" || !IsSpace(s[0])
    ensures QuoteAhead(s) <==> s != "" && IsQuote(s[0])
  {
  }

  /** The position where a comment opened at `i` ends, one before the next character
      to look at; the length of the text when it does not end. */
  method FindCommentEnd(css: string, from: nat) returns (next: nat)
    requires from <= |css|
    ensures next == from + CommentRest(css[from..])
  {
    next := from;
    while next + 1 < |css| && !(css[next] == '*' && css[next + 1] == '/')
      invariant from <= next <= |css|
      invariant from + CommentRest(css[from..]) == next + CommentRest(css[next..])
    {
      assert css[next..][1..] == css[next + 1..];
      next := next + 1;
    }
    next := if next + 1 < |css| then next + 2 else |css|;
  }

  /** What is still to be emitted inside a string opened by `quote`. */
  ghost function InString(quote: char, s: string): string {
    var n := Until(quote, s).len;
    s[..n] + Strip(false, s[n..])
  }

  lemma StringEscape(quote: char, s: string)
    requires |s| >= 2 && s[0] == '\\'
    ensures InString(quote, s) == s[..2] + InString(quote, s[2..])
  {
    hide Strip;
    var n := Until(quote, s[2..]).len;
    assert s[..n + 2] == s[..2] + s[2..][..n] && s[n + 2..] == s[2..][n..];
  }

  lemma StringChar(quote: char, s: string)
    requires s != "" && (s[0] != '\\' || |s| == 1) && s[0] != quote
    ensures InString(quote, s) == s[..1] + InString(quote, s[1..])
  {
    hide Strip;
    var n := Until(quote, s[1..]).len;
    assert s[..n + 1] == s[..1] + s[1..][..n] && s[n + 1..] == s[1..][n..];
  }

  lemma StringEnd(quote: char, s: string)
    requires s != "" && s[0] == quote && quote != '\\'
    ensures InString(quote, s) == s[..1] + Strip(false, s[1..])
  {
    hide Strip;
  }

  lemma StringStart(glued: bool, s: string)
    requires s != "" && IsQuote(s[0])
    ensures Strip(glued, s) == s[..1] + InString(s[0], s[1..])
  {
    var r := Until(s[0], s[1..]);
    assert HeadOf(glued, s) == Whole(Reach(r.len + 1, r.closed));
    hide HeadOf;
    hide Until;
    var n := r.len;
    assert s[..n + 1] == s[..1] + s[1..][..n] && s[n + 1..] == s[1..][n..];
  }

  lemma CommentEndsInSlash(s: string)
    ensures CommentRest(s) < |s| ==> CommentRest(s) > 0 && s[CommentRest(s) - 1] == '/'
  {
  }

  lemma UntilEndsInEnd(end: char, s: string)
    ensures var r := Until(end, s); r.closed ==> s[r.len - 1] == end
  {
  }

  lemma RemarkStep(glued: bool, s: string)
    requires |s| > 1 && s[0] == '/' && s[1] == '*'
    ensures Strip(glued, s) == " " + Strip(false, s[2 + CommentRest(s[2..])..])
  {
  }

  lemma PlainStep(glued: bool, s: string)
    requires s != "" && !IsQuote(s[0]) && !(|s| > 1 && s[0] == '/' && s[1] == '*')
    ensures Strip(glued, s) ==
            if SaysUrl(s) && !glued && !QuoteAhead(s[4..]) then
              var n := 4 + Until(')', s[4..]).len;
              s[..n] + Strip(false, s[n..])
            else [s[0]] + Strip(IsNameChar(s[0]), s[1..])
  {
  }

  /** What is still to be emitted at position `i`, `quote` being the open quote or a
      space when none is. */
  ghost function Left(css: string, i: nat, quote: char): string
    requires i <= |css|
  {
    if quote == ' ' then Strip(GluedAt(css, i), css[i..]) else InString(quote, css[i..])
  }

  lemma LeftInString(css: string, i: nat, quote: char)
    requires i < |css| && IsQuote(quote)
    ensures css[i] == '\\' && i + 1 < |css| ==> Emits(css, i, quote, css[i..i + 2], i + 2, quote)
    ensures !(css[i] == '\\' && i + 1 < |css|) ==>
              Emits(css, i, quote, [css[i]], i + 1, if css[i] == quote then ' ' else quote)
  {
    hide Strip;
    hide InString;
    assert css[i..][1..] == css[i + 1..] && css[i..][..1] == [css[i]];
    if css[i] == '\\' && i + 1 < |css| {
      StringEscape(quote, css[i..]);
      assert css[i..][2..] == css[i + 2..] && css[i..][..2] == css[i..i + 2];
    } else if css[i] == quote {
      StringEnd(quote, css[i..]);
    } else {
      StringChar(quote, css[i..]);
    }
  }

  lemma LeftAtQuote(css: string, i: nat)
    requires i < |css| && IsQuote(css[i])
    ensures Emits(css, i, ' ', [css[i]], i + 1, css[i])
  {
    hide Strip;
    hide InString;
    assert css[i..][1..] == css[i + 1..] && css[i..][..1] == [css[i]];
    StringStart(GluedAt(css, i), css[i..]);
  }

  lemma LeftAtComment(css: string, i: nat)
    requires i + 1 < |css| && css[i] == '/' && css[i + 1] == '*'
    ensures Emits(css, i, ' ', " ", i + 2 + CommentRest(css[i + 2..]), ' ')
  {
    hide Strip;
    hide Until;
    hide InString;
    hide CommentRest;
    var next := i + 2 + CommentRest(css[i + 2..]);
    SuffixCut(css, i, 2);
    SuffixCut(css, i, next - i);
    RemarkStep(GluedAt(css, i), css[i..]);
    CommentEndsInSlash(css[i + 2..]);
    assert next < |css| ==> css[next - 1] == css[i + 2..][next - i - 3];
    LeftAfter(css, next);
  }

  lemma LeftAtPlain(css: string, i: nat)
    requires i < |css| && !IsQuote(css[i]) && !(i + 1 < |css| && css[i] == '/' && css[i + 1] == '*')
    ensures var end := UrlEnd(css, i);
            if end == -1 then Emits(css, i, ' ', [css[i]], i + 1, ' ')
            else Emits(css, i, ' ', css[i..end], end, ' ')
  {
    hide Strip;
    hide Until;
    hide InString;
    hide QuoteAhead;
    var s, end := css[i..], UrlEnd(css, i);
    PlainStep(GluedAt(css, i), s);
    if end != -1 {
      SuffixCut(css, i, end - i);
      SuffixCut(css, i, 4);
      UntilEndsInEnd(')', css[i + 4..]);
      assert end < |css| ==> css[end - 1] == css[i + 4..][end - i - 5];
      LeftAfter(css, end);
    } else {
      SuffixCut(css, i, 1);
    }
  }

  lemma LeftAfter(css: string, i: nat)
    requires i <= |css| && (i < |css| ==> !GluedAt(css, i))
    ensures Left(css, i, ' ') == Strip(false, css[i..])
  {
    assert i == |css| ==> css[i..] == "";
  }

  lemma NothingLeft(css: string, quote: char)
    ensures Left(css, |css|, quote) == ""
    ensures Strip(true, "") == Strip(false, "") == ""
  {
    assert css[|css|..] == "";
  }

  /** Emitting `piece` and going on at `next` with the register `reg` is right. */
  ghost predicate Emits(css: string, i: nat, quote: char, piece: string, next: nat, reg: char) {
    && i < next <= |css| && (reg == ' ' || IsQuote(reg))
    && Left(css, i, quote) == piece + Left(css, next, reg)
  }

  ghost predicate Emitted(css: string, out: string, i: nat, quote: char) {
    && i <= |css| && (quote == ' ' || IsQuote(quote))
    && out + Left(css, i, quote) == Strip(false, css)
  }

  lemma Emit(css: string, out: string, i: nat, quote: char, piece: string, next: nat, reg: char)
    requires Emitted(css, out, i, quote) && Emits(css, i, quote, piece, next, reg)
    ensures Emitted(css, out + piece, next, reg) && i < next <= |css|
  {
    hide Left;
    hide Strip;
    assert out + (piece + Left(css, next, reg)) == out + piece + Left(css, next, reg);
  }

  lemma EmitStart(css: string)
    ensures Emitted(css, "", 0, ' ')
  {
    assert css[0..] == css;
    assert "" + Strip(false, css) == Strip(false, css);
  }

  lemma EmitEnd(css: string, out: string, quote: char)
    requires Emitted(css, out, |css|, quote)
    ensures out == Strip(false, css)
  {
    NothingLeft(css, quote);
    assert out + "" == out;
  }

  /** The character loop, with its `quote` register (a space when none is open). */
  method StripComments(css: string) returns (out: string)
    ensures out == Strip(false, css)
  {
    hide *;
    out := "";
    var quote: char := ' ';
    var i := 0;
    EmitStart(css);
    while i < |css|
      invariant i <= |css| && (quote == ' ' || IsQuote(quote))
      invariant Emitted(css, out, i, quote)
      decreases |css| - i
    {
      var c, piece, next := css[i], [css[i]], i + 1;
      var reg := quote;
      if quote != ' ' {
        LeftInString(css, i, quote);
        if c == '\\' && i + 1 < |css| {
          piece, next := css[i..i + 2], i + 2;
        } else if c == quote {
          reg := ' ';
        }
      } else if IsQuote(c) {
        LeftAtQuote(css, i);
        reg := c;
      } else if c == '/' && i + 1 < |css| && css[i + 1] == '*' {
        LeftAtComment(css, i);
        next := FindCommentEnd(css, i + 2);
        piece := " ";
      } else {
        LeftAtPlain(css, i);
        var end := ScanUnquotedUrl(css, i);
        if end != -1 {
          piece, next := css[i..end], end;
        }
      }
      Emit(css, out, i, quote, piece, next, reg);
      out, i, quote := out + piece, next, reg;
    }
    EmitEnd(css, out, quote);
  }
}

/** A style text as a list of tokens, and comment stripping as what it does to that
    list: every comment becomes one space and nothing else changes. */
module CssTokens {
  import opened Text
  import opened CssScan

  /** An open token runs to the end of the text without its own end. */
  datatype Token =
    | Plain(c: char)
    | Quoted(quote: char, body: string)
    | Url(start: string, body: string)
    | Comment(body: string)
    | OpenQuoted(quote: char, body: string)
    | OpenUrl(start: string, body: string)
    | OpenComment(body: string)

  function Spell(t: Token): (s: string)
    ensures t.Plain? ==> s == [t.c]
  {
    match t
    case Plain(c) => [c]
    case Quoted(quote, body) => [quote] + body + [quote]
    case Url(start, body) => start + body + ")"
    case Comment(body) => "/*" + body + "*/"
    case OpenQuoted(quote, body) => [quote] + body
    case OpenUrl(start, body) => start + body
    case OpenComment(body) => "/*" + body
  }

  function Print(ts: seq<Token>): string {
    if ts == [] then "" else Spell(ts[0]) + Print(ts[1..])
  }

  /** Characters other than `end` and backslash, and backslashes with what follows. */
  predicate Escaped(end: char, body: string) {
    body == "" ||
    (if body[0] == '\\' then |body| >= 2 && Escaped(end, body[2..])
     else body[0] != end && Escaped(end, body[1..]))
  }

  /** The same, except that a lone backslash may come last. */
  predicate OpenEscaped(end: char, body: string) {
    body == "" ||
    (if body[0] == '\\' then |body| == 1 || OpenEscaped(end, body[2..])
     else body[0] != end && OpenEscaped(end, body[1..]))
  }

  predicate NoCommentEnd(s: string) {
    forall i :: 0 <= i < |s| - 1 ==> !(s[i] == '*' && s[i + 1] == '/')
  }

  /** An unquoted url starts at the head of `s`. */
  predicate UrlStarts(glued: bool, s: string) {
    SaysUrl(s) && !glued && !QuoteAhead(s[4..])
  }

  predicate IsUrlWord(s: string) { |s| == 4 && SaysUrl(s) }

  /** The list is a reading of its own text: every token has its form, and no plain
      character is the start of another token. */
  predicate Proper(glued: bool, ts: seq<Token>)
    decreases |ts|
  {
    ts == [] ||
    match ts[0]
    case Plain(c) =>
      && !IsQuote(c) && Proper(IsNameChar(c), ts[1..])
      && !(c == '/' && Print(ts[1..]) != "" && Print(ts[1..])[0] == '*')
      && !UrlStarts(glued, Print(ts))
    case Quoted(quote, body) => IsQuote(quote) && Escaped(quote, body) && Proper(false, ts[1..])
    case Url(start, body) =>
      !glued && IsUrlWord(start) && Escaped(')', body) && !QuoteAhead(body) && Proper(false, ts[1..])
    case Comment(body) => NoCommentEnd(body + "*") && Proper(false, ts[1..])
    case OpenQuoted(quote, body) => IsQuote(quote) && OpenEscaped(quote, body) && |ts| == 1
    case OpenUrl(start, body) =>
      !glued && IsUrlWord(start) && OpenEscaped(')', body) && !QuoteAhead(body) && |ts| == 1
    case OpenComment(body) => NoCommentEnd(body) && |ts| == 1
  }

  function BlankToken(t: Token): Token {
    if t.Comment? || t.OpenComment? then Plain(' ') else t
  }

  /** Every comment replaced by a space. */
  function Blank(ts: seq<Token>): (r: seq<Token>)
    ensures |r| == |ts|
  {
    if ts == [] then [] else [BlankToken(ts[0])] + Blank(ts[1..])
  }

  // ------------------------------------------------------------ reading a token

  lemma {:induction false} UntilEscaped(end: char, body: string, rest: string)
    requires Escaped(end, body) && end != '\\'
    ensures Until(end, body + [end] + rest) == Reach(|body| + 1, true)
  {
    var s := body + [end] + rest;
    if body == "" {
    } else if body[0] == '\\' {
      assert s[2..] == body[2..] + [end] + rest;
      UntilEscaped(end, body[2..], rest);
    } else {
      assert s[1..] == body[1..] + [end] + rest;
      UntilEscaped(end, body[1..], rest);
    }
  }

  lemma {:induction false} UntilOpen(end: char, body: string)
    requires OpenEscaped(end, body)
    ensures Until(end, body) == Reach(|body|, false)
  {
    if body != "" && !(body[0] == '\\' && |body| == 1) {
      if body[0] == '\\' {
        UntilOpen(end, body[2..]);
      } else {
        UntilOpen(end, body[1..]);
      }
    }
  }

  lemma {:induction false} CommentRestOf(body: string, rest: string)
    requires NoCommentEnd(body + "*")
    ensures CommentRest(body + "*/" + rest) == |body| + 2
  {
    var s := body + "*/" + rest;
    if body == "" {
    } else {
      assert (body + "*")[0] == s[0] && (body + "*")[1] == s[1];
      assert s[1..] == body[1..] + "*/" + rest;
      assert (body + "*")[1..] == body[1..] + "*";
      CommentRestOf(body[1..], rest);
    }
  }

  lemma {:induction false} CommentRestOpen(body: string)
    requires NoCommentEnd(body)
    ensures CommentRest(body) == |body|
  {
    if |body| >= 2 {
      CommentRestOpen(body[1..]);
    }
  }

  lemma {:induction false} QuoteAheadClosed(body: string, rest: string)
    requires !QuoteAhead(body)
    ensures !QuoteAhead(body + ")" + rest)
  {
    var s := body + ")" + rest;
    if body != "" && IsSpace(body[0]) {
      assert s[1..] == body[1..] + ")" + rest;
      QuoteAheadClosed(body[1..], rest);
    }
  }

  lemma HeadQuoted(glued: bool, quote: char, body: string, rest: string)
    requires IsQuote(quote) && Escaped(quote, body)
    ensures var s := [quote] + body + [quote] + rest;
            HeadOf(glued, s) == Whole(Reach(|body| + 2, true))
  {
    var s := [quote] + body + [quote] + rest;
    assert s[1..] == body + [quote] + rest;
    UntilEscaped(quote, body, rest);
  }

  lemma HeadUrl(start: string, body: string, rest: string)
    requires IsUrlWord(start) && Escaped(')', body) && !QuoteAhead(body)
    ensures var s := start + body + ")" + rest;
            HeadOf(false, s) == Whole(Reach(|body| + 5, true))
  {
    var s := start + body + ")" + rest;
    assert s[4..] == body + ")" + rest && s[..4] == start;
    UntilEscaped(')', body, rest);
    QuoteAheadClosed(body, rest);
    hide Until;
    hide QuoteAhead;
    hide Escaped;
    assert SaysUrl(s);
  }

  lemma HeadComment(glued: bool, body: string, rest: string)
    requires NoCommentEnd(body + "*")
    ensures HeadOf(glued, "/*" + body + "*/" + rest) == Remark(|body| + 4)
  {
    var s := "/*" + body + "*/" + rest;
    assert s[2..] == body + "*/" + rest;
    CommentRestOf(body, rest);
  }

  lemma HeadOpen(glued: bool, t: Token)
    requires Proper(glued, [t]) && (t.OpenQuoted? || t.OpenUrl? || t.OpenComment?)
    ensures var h, n := HeadOf(glued, Spell(t)), |Spell(t)|;
            if t.OpenComment? then h == Remark(n) else h == Whole(Reach(n, false))
  {
    var s := Spell(t);
    match t
    case OpenQuoted(quote, body) =>
      assert s[1..] == body;
      UntilOpen(quote, body);
    case OpenUrl(start, body) =>
      assert s[4..] == body && s[..4] == start;
      UntilOpen(')', body);
    case OpenComment(body) =>
      assert s[2..] == body;
      CommentRestOpen(body);
  }

  lemma HeadPlain(glued: bool, c: char, rest: string)
    requires !IsQuote(c) && !(c == '/' && rest != "" && rest[0] == '*') && !UrlStarts(glued, [c] + rest)
    ensures HeadOf(glued, [c] + rest) == Single
  {
  }

  /** A proper list is read back token by token. */
  lemma HeadOfToken(glued: bool, ts: seq<Token>)
    requires ts != [] && Proper(glued, ts)
    ensures Print(ts) != ""
    ensures var h, n := HeadOf(glued, Print(ts)), |Spell(ts[0])|;
            match ts[0]
            case Plain(_) => h == Single
            case Comment(_) => h == Remark(n)
            case OpenComment(_) => h == Remark(n)
            case _ => h.Whole? && h.reach.len == n
  {
    hide HeadOf;
    hide UrlStarts;
    hide Escaped;
    hide OpenEscaped;
    hide NoCommentEnd;
    hide QuoteAhead;
    var rest := Print(ts[1..]);
    match ts[0]
    case Plain(c) => HeadPlain(glued, c, rest);
    case Quoted(quote, body) => HeadQuoted(glued, quote, body, rest);
    case Url(start, body) => HeadUrl(start, body, rest);
    case Comment(body) => HeadComment(glued, body, rest);
    case _ =>
      assert ts == [ts[0]] && rest == "" && Print(ts) == Spell(ts[0]);
      HeadOpen(glued, ts[0]);
  }

  /** Main result on lists: stripping the text of a proper list prints the list with
      its comments blanked. */
  lemma {:induction false} StripPrinted(glued: bool, ts: seq<Token>)
    requires Proper(glued, ts)
    ensures Strip(glued, Print(ts)) == Print(Blank(ts))
    decreases |ts|
  {
    if ts != [] {
      var s, n := Print(ts), |Spell(ts[0])|;
      HeadOfToken(glued, ts);
      SuffixCut(s, 0, n);
      assert s[..n] == Spell(ts[0]) && s[n..] == Print(ts[1..]);
      if ts[0].Plain? {
        StripPrinted(IsNameChar(ts[0].c), ts[1..]);
      } else {
        assert Proper(false, ts[1..]);
        StripPrinted(false, ts[1..]);
      }
    }
  }

  // ------------------------------------------------------------ every text has a reading

  lemma {:induction false} EscapedUntil(end: char, s: string)
    requires Until(end, s).closed && end != '\\'
    ensures var n := Until(end, s).len; n > 0 && s[n - 1] == end && Escaped(end, s[..n - 1])
  {
    var n := Until(end, s).len;
    if s[0] == '\\' {
      EscapedUntil(end, s[2..]);
      assert s[..n - 1][2..] == s[2..][..n - 3];
    } else if s[0] == end {
    } else {
      EscapedUntil(end, s[1..]);
      assert s[..n - 1][1..] == s[1..][..n - 2];
    }
  }

  lemma {:induction false} OpenEscapedUntil(end: char, s: string)
    requires !Until(end, s).closed
    ensures OpenEscaped(end, s)
  {
    if s != "" && !(s[0] == '\\' && |s| == 1) {
      if s[0] == '\\' {
        OpenEscapedUntil(end, s[2..]);
      } else {
        OpenEscapedUntil(end, s[1..]);
      }
    }
  }

  lemma NoCommentEndCons(s: string)
    requires s != "" && NoCommentEnd(s[1..]) && !(|s| > 1 && s[0] == '*' && s[1] == '/')
    ensures NoCommentEnd(s)
  {
    forall i | 0 <= i < |s| - 1 ensures !(s[i] == '*' && s[i + 1] == '/') {
      assert i > 0 ==> s[i] == s[1..][i - 1] && s[i + 1] == s[1..][i];
    }
  }

  /** A comment's end, or that it has none. */
  lemma {:induction false} CommentRestReads(s: string) returns (closed: bool)
    ensures var n := CommentRest(s);
            if closed then n >= 2 && s[n - 2] == '*' && s[n - 1] == '/' && NoCommentEnd(s[..n - 1])
            else n == |s| && NoCommentEnd(s)
  {
    if |s| < 2 {
      closed := false;
    } else if s[0] == '*' && s[1] == '/' {
      closed := true;
    } else {
      closed := CommentRestReads(s[1..]);
      var n := CommentRest(s);
      hide NoCommentEnd;
      if closed {
        assert s[..n - 1][1..] == s[1..][..n - 2];
        NoCommentEndCons(s[..n - 1]);
      } else {
        NoCommentEndCons(s);
      }
    }
  }

  lemma {:induction false} QuoteAheadPrefix(s: string, n: nat)
    requires n <= |s| && !QuoteAhead(s)
    ensures !QuoteAhead(s[..n])
  {
    if n > 0 && IsSpace(s[0]) {
      assert s[..n][1..] == s[1..][..n - 1];
      QuoteAheadPrefix(s[1..], n - 1);
    }
  }

  /** What a token read at the head of `s` satisfies. */
  ghost predicate Reads(glued: bool, s: string, t: Token) {
    && 0 < |Spell(t)| <= |s| && s[..|Spell(t)|] == Spell(t)
    && match t
       case Plain(c) => s != "" && HeadOf(glued, s) == Single
       case Quoted(quote, body) => IsQuote(quote) && Escaped(quote, body)
       case Url(start, body) => !glued && IsUrlWord(start) && Escaped(')', body) && !QuoteAhead(body)
       case Comment(body) => NoCommentEnd(body + "*")
       case OpenQuoted(quote, body) => IsQuote(quote) && OpenEscaped(quote, body) && Spell(t) == s
       case OpenUrl(start, body) =>
         !glued && IsUrlWord(start) && OpenEscaped(')', body) && !QuoteAhead(body) && Spell(t) == s
       case OpenComment(body) => NoCommentEnd(body) && Spell(t) == s
  }

  lemma ReadQuoted(glued: bool, s: string) returns (t: Token)
    requires s != "" && IsQuote(s[0])
    ensures Reads(glued, s, t) && !t.Plain?
  {
    var r, rest := Until(s[0], s[1..]), s[1..];
    if r.closed {
      EscapedUntil(s[0], rest);
      t := Quoted(s[0], rest[..r.len - 1]);
      assert Spell(t) == s[..r.len + 1];
    } else {
      OpenEscapedUntil(s[0], rest);
      t := OpenQuoted(s[0], rest);
      assert Spell(t) == s && s[..|s|] == s;
    }
  }

  lemma ReadUrl(s: string) returns (t: Token)
    requires UrlStarts(false, s)
    ensures Reads(false, s, t) && !t.Plain?
  {
    if Until(')', s[4..]).closed {
      t := ReadClosedUrl(s);
    } else {
      OpenEscapedUntil(')', s[4..]);
      t := OpenUrl(s[..4], s[4..]);
      hide Until, QuoteAhead, OpenEscaped;
      assert Spell(t) == s && s[..|s|] == s;
    }
  }

  lemma ReadClosedUrl(s: string) returns (t: Token)
    requires UrlStarts(false, s) && Until(')', s[4..]).closed
    ensures Reads(false, s, t) && t.Url?
  {
    var n, rest, start := Until(')', s[4..]).len, s[4..], s[..4];
    EscapedUntil(')', rest);
    hide Until, Escaped, QuoteAhead;
    QuoteAheadPrefix(rest, n - 1);
    t := Url(start, rest[..n - 1]);
    assert Spell(t) == s[..n + 4];
  }

  lemma ReadComment(glued: bool, s: string) returns (t: Token)
    requires |s| >= 2 && s[0] == '/' && s[1] == '*'
    ensures Reads(glued, s, t) && !t.Plain?
  {
    var rest := s[2..];
    var closed := CommentRestReads(rest);
    var n := CommentRest(rest);
    hide CommentRest;
    hide NoCommentEnd;
    if closed {
      t := Comment(rest[..n - 2]);
      assert rest[..n - 1] == t.body + "*";
      assert Spell(t) == s[..n + 2];
    } else {
      t := OpenComment(rest);
      assert Spell(t) == s && s[..|s|] == s;
    }
  }

  /** There is a token at the head of every text. */
  lemma ReadToken(glued: bool, s: string) returns (t: Token)
    requires s != ""
    ensures Reads(glued, s, t)
  {
    hide Escaped;
    hide QuoteAhead;
    hide NoCommentEnd;
    if IsQuote(s[0]) {
      t := ReadQuoted(glued, s);
    } else if s[0] == '/' && |s| > 1 && s[1] == '*' {
      t := ReadComment(glued, s);
    } else if UrlStarts(glued, s) {
      t := ReadUrl(s);
    } else {
      t := Plain(s[0]);
    }
  }

  /** Every text is the print of a proper list. */
  lemma {:induction false} Tokenize(glued: bool, s: string) returns (ts: seq<Token>)
    ensures Print(ts) == s && Proper(glued, ts)
    decreases |s|
  {
    if s == "" {
      ts := [];
    } else {
      var t := ReadToken(glued, s);
      var n := |Spell(t)|;
      assert s == Spell(t) + s[n..];
      var rest := Tokenize(if t.Plain? then IsNameChar(t.c) else false, s[n..]);
      ts := [t] + rest;
      assert ts[1..] == rest;
      if Spell(t) == s {
        assert Print(rest) == "";
        assert rest == [] by { if rest != [] { HeadOfToken(if t.Plain? then IsNameChar(t.c) else false, rest); } }
      }
    }
  }

  // ------------------------------------------------------------ blanking twice

  lemma {:induction false} QuoteAheadBlank(glued: bool, ts: seq<Token>)
    requires Proper(glued, ts) && QuoteAhead(Print(ts))
    ensures QuoteAhead(Print(Blank(ts)))
    decreases |ts|
  {
    if ts != [] && ts[0].Plain? {
      assert Print(ts)[1..] == Print(ts[1..]);
      assert Blank(ts)[1..] == Blank(ts[1..]);
      assert Print(Blank(ts))[1..] == Print(Blank(ts[1..]));
      QuoteAheadBlank(IsNameChar(ts[0].c), ts[1..]);
    }
  }

  /** A letter or parenthesis that a blanked list shows was there before. */
  lemma WordShows(glued: bool, ts: seq<Token>, c: char)
    requires Proper(glued, ts) && c != ' ' && c != 'u' && c != 'U' && !IsQuote(c)
    requires Print(Blank(ts)) != "" && Print(Blank(ts))[0] == c
    ensures ts != [] && ts[0] == Plain(c)
    ensures Print(ts) != "" && Print(ts)[0] == c && Print(ts)[1..] == Print(ts[1..])
    ensures Print(Blank(ts))[1..] == Print(Blank(ts[1..]))
    ensures Proper(IsNameChar(c), ts[1..])
  {
    assert Blank(ts)[1..] == Blank(ts[1..]);
    assert Print(Blank(ts))[0] == Spell(BlankToken(ts[0]))[0];
  }

  /** If a blanked list shows `rl(`, it was there before. */
  lemma WordShowsThrice(glued: bool, ts: seq<Token>) returns (rest: seq<Token>)
    requires Proper(glued, ts)
    requires var b := Print(Blank(ts));
             |b| >= 3 && IsLetter(b[0], 'r', 'R') && IsLetter(b[1], 'l', 'L') && b[2] == '('
    ensures var s, b := Print(ts), Print(Blank(ts));
            |s| >= 3 && s[..3] == b[..3] && s[3..] == Print(rest) && b[3..] == Print(Blank(rest))
    ensures Proper(false, rest)
  {
    hide Proper;
    hide Blank;
    hide Print;
    var b, s := Print(Blank(ts)), Print(ts);
    WordShows(glued, ts, b[0]);
    WordShows(IsNameChar(b[0]), ts[1..], b[1]);
    WordShows(IsNameChar(b[1]), ts[1..][1..], b[2]);
    rest := ts[1..][1..][1..];
    assert s[1..][1..][1..] == s[3..] && b[1..][1..][1..] == b[3..];
    assert s[1] == s[1..][0] && s[2] == s[1..][1..][0] && b[1] == b[1..][0] && b[2] == b[1..][1..][0];
  }

  /** Blanking comments makes no url out of plain characters. */
  lemma NoNewUrl(glued: bool, ts: seq<Token>)
    requires ts != [] && ts[0].Plain? && Proper(glued, ts)
    ensures !UrlStarts(glued, Print(Blank(ts)))
  {
    var b, s := Print(Blank(ts)), Print(ts);
    assert Blank(ts)[1..] == Blank(ts[1..]);
    assert b[1..] == Print(Blank(ts[1..])) && s[1..] == Print(ts[1..]) && b[0] == s[0];
    assert Proper(IsNameChar(ts[0].c), ts[1..]) && !UrlStarts(glued, s);
    hide Proper;
    hide QuoteAhead;
    if SaysUrl(b) && !glued {
      assert b[1..][0] == b[1] && b[1..][1] == b[2] && b[1..][2] == b[3];
      var rest := WordShowsThrice(IsNameChar(ts[0].c), ts[1..]);
      assert s[1..][..3] == b[1..][..3];
      assert s[1] == s[1..][..3][0] && s[2] == s[1..][..3][1] && s[3] == s[1..][..3][2];
      assert s[4..] == s[1..][3..] && b[4..] == b[1..][3..];
      if QuoteAhead(s[4..]) {
        QuoteAheadBlank(false, rest);
      }
    }
  }

  lemma {:induction false} BlankProper(glued: bool, ts: seq<Token>)
    requires Proper(glued, ts)
    ensures Proper(glued, Blank(ts)) && Blank(Blank(ts)) == Blank(ts)
    decreases |ts|
  {
    if ts != [] {
      var bs := Blank(ts);
      assert bs[1..] == Blank(ts[1..]);
      match ts[0]
      case Plain(c) =>
        BlankProper(IsNameChar(c), ts[1..]);
        NoNewUrl(glued, ts);
        if Print(bs[1..]) != "" && Print(bs[1..])[0] == '*' {
          WordShows(IsNameChar(c), ts[1..], '*');
        }
      case OpenQuoted(_, _) =>
      case OpenUrl(_, _) =>
      case OpenComment(_) =>
        assert ts[1..] == [] && bs == [Plain(' ')] && bs[1..] == [];
        assert Print(bs) == " " && Proper(IsNameChar(' '), bs[1..]);
        assert Blank(bs[1..]) == [];
      case _ =>
        BlankProper(false, ts[1..]);
    }
  }

  /** Main result on texts: a stripped text has no comment left to strip. */
  lemma StripIdempotent(css: string)
    ensures Strip(false, Strip(false, css)) == Strip(false, css)
  {
    var ts := Tokenize(false, css);
    StripPrinted(false, ts);
    BlankProper(false, ts);
    StripPrinted(false, Blank(ts));
  }
}

/** What the scanner of pseudo-class rules takes for a string, an url, a comment, a parenthesis
    and a cut, in literal characters. */
module CssLaws {
  import opened Text
  import opened CssScan
  import opened CssTokens
  import opened CssImportant

  predicate Quotation(c: char) { c == '"' || c == '\'' }

  /** What a name can hold, before which `url(` is no url. */
  predicate InName(c: char) {
    'a' <= c <= 'z' || 'A' <= c <= 'Z' || '0' <= c <= '9' || c == '_' || c == '-'
  }

  // ------------------------------------------------------------ strings

  /** A string, in either kind of quotation marks, is passed over as a whole, whatever is in it
      and wherever it stands. */
  lemma StringIsWhole(glued: bool, depth: nat, quote: char, body: string, t: string)
    requires Quotation(quote) && Escaped(quote, body)
    ensures var s := [quote] + body + [quote];
            && Cuts(glued, depth, s + t) == Prepend(s, Cuts(false, depth, t))
            && Strip(glued, s + t) == s + Strip(false, t)
  {
    var s := [quote] + body + [quote];
    UntilEscaped(quote, body, t);
    assert (s + t)[1..] == body + [quote] + t;
    assert HeadOf(glued, s + t) == Whole(Reach(|s|, true));
    assert (s + t)[..|s|] == s && (s + t)[|s|..] == t;
    hide HeadOf, Until, Escaped;
  }

  /** Main result: a string stands in one declaration, and a semicolon, a parenthesis or a
      comment in it is text. */
  lemma StringsAreNotCut(quote: char, body: string, t: string)
    requires Quotation(quote) && Escaped(quote, body)
    ensures var s := [quote] + body + [quote];
            && Cuts(false, 0, s + ";" + t) == [s] + Cuts(false, 0, t)
            && Strip(false, s + ";" + t) == s + ";" + Strip(false, t)
  {
    var s := [quote] + body + [quote];
    hide Cuts, Strip;
    StringIsWhole(false, 0, quote, body, ";" + t);
    CharacterIs(false, 0, ';', t);
    assert s + ";" + t == s + (";" + t) && s + "" == s;
    assert s + (";" + Strip(false, t)) == s + ";" + Strip(false, t);
  }

  // ------------------------------------------------------------ single characters

  /** A character that begins nothing: a semicolon outside parentheses cuts, a parenthesis
      counts, one that closes nothing does not, and a name goes on. */
  lemma CharacterIs(glued: bool, depth: nat, c: char, t: string)
    requires !Quotation(c) && c != 'u' && c != 'U' && !(c == '/' && t != "" && t[0] == '*')
    ensures Strip(glued, [c] + t) == [c] + Strip(InName(c), t)
    ensures Cuts(glued, depth, [c] + t) ==
            if c == ';' && depth == 0 then [""] + Cuts(false, 0, t)
            else if c == '(' then Prepend("(", Cuts(false, depth + 1, t))
            else if c == ')' then Prepend(")", Cuts(false, if depth == 0 then 0 else depth - 1, t))
            else Prepend([c], Cuts(InName(c), depth, t))
  {
    var s := [c] + t;
    assert s[0] == c && s[1..] == t && s[..1] == [c];
    assert t != "" ==> s[1] == t[0];
    assert HeadOf(glued, s) == Single;
    hide HeadOf;
  }

  /** An `u` that does not begin an url is a character like others. */
  lemma LetterIs(glued: bool, depth: nat, c: char, t: string)
    requires (c == 'u' || c == 'U') && (glued || !SaysUrlAfter(t) || QuoteComes(t[3..]))
    ensures Strip(glued, [c] + t) == [c] + Strip(true, t)
    ensures Cuts(glued, depth, [c] + t) == Prepend([c], Cuts(true, depth, t))
  {
    var s := [c] + t;
    assert s[0] == c && s[1..] == t && s[..1] == [c];
    assert |t| >= 3 ==> s[1] == t[0] && s[2] == t[1] && s[3] == t[2] && s[4..] == t[3..];
    if SaysUrlAfter(t) { QuoteComesIff(t[3..]); }
    assert HeadOf(glued, s) == Single;
    hide HeadOf;
  }

  /** `rl(`, in any mixture of cases. */
  predicate SaysUrlAfter(t: string) {
    |t| >= 3 && (t[0] == 'r' || t[0] == 'R') && (t[1] == 'l' || t[1] == 'L') && t[2] == '('
  }

  /** The first character that is no white space is a quotation mark. */
  predicate QuoteComes(s: string) { TrimLeft(s) != "" && Quotation(TrimLeft(s)[0]) }

  lemma {:induction false} QuoteComesIff(s: string)
    ensures QuoteAhead(s) <==> QuoteComes(s)
  {
    if s != "" && IsSpace(s[0]) {
      QuoteComesIff(s[1..]);
    }
  }

  // ------------------------------------------------------------ urls and comments

  /** An url without quotation marks, that does not go on a name, is passed over as a whole. */
  lemma UrlIsWhole(depth: nat, c: char, front: string, body: string, t: string)
    requires (c == 'u' || c == 'U') && |front| == 3 && SaysUrlAfter(front)
    requires Escaped(')', body) && !QuoteComes(body)
    ensures var s := [c] + front + body + ")";
            && Cuts(false, depth, s + t) == Prepend(s, Cuts(false, depth, t))
            && Strip(false, s + t) == s + Strip(false, t)
  {
    var s := [c] + front + body + ")";
    UntilEscaped(')', body, t);
    var rest := body + ")" + t;
    assert (s + t)[4..] == rest;
    assert (s + t)[0] == c && (s + t)[1] == front[0] && (s + t)[2] == front[1] && (s + t)[3] == front[2];
    QuoteComesIff(rest);
    NoQuoteComes(body, ")" + t);
    assert rest == body + (")" + t);
    assert HeadOf(false, s + t) == Whole(Reach(|s|, true));
    assert (s + t)[..|s|] == s && (s + t)[|s|..] == t;
    hide HeadOf, Until, Escaped;
  }

  lemma {:induction false} NoQuoteComes(body: string, rest: string)
    requires !QuoteComes(body) && rest != "" && rest[0] == ')'
    ensures !QuoteComes(body + rest)
  {
    if body == "" {
      assert body + rest == rest;
    } else if IsSpace(body[0]) {
      assert (body + rest)[1..] == body[1..] + rest;
      NoQuoteComes(body[1..], rest);
    }
  }

  /** A comment becomes one space. */
  lemma CommentIsSpace(glued: bool, body: string, t: string)
    requires NoCommentEnd(body + "*")
    ensures Strip(glued, "/*" + body + "*/" + t) == " " + Strip(false, t)
  {
    var s := "/*" + body + "*/" + t;
    CommentRestOf(body, t);
    assert s[2..] == body + "*/" + t;
    assert HeadOf(glued, s) == Remark(|body| + 4);
    assert s[|body| + 4..] == t;
    hide HeadOf;
  }

  // ------------------------------------------------------------ the mark

  predicate Letter(c: char, small: char) { c == small || c as int == small as int - 32 }

  /** `important`, in any mixture of cases. */
  predicate SaysImportant(s: string) { |s| == 9 && forall i :: 0 <= i < 9 ==> Letter(s[i], "important"[i]) }

  /** A declaration counts as important if it ends in `!`, white space and the word, and only
      then. */
  lemma ImportantEnds(before: string, space: string, word: string)
    requires AllSpace(space) && SaysImportant(word)
    ensures IsImportant(before + "!" + space + word)
  {
    var d, front := before + "!" + space + word, before + "!";
    assert d[|d| - 9..] == word && d[..|d| - 9] == front + space;
    WordLowered(word);
    TrimRightDropsSpace(front, space);
    assert TrimRight(front) == front;
  }

  lemma WordLowered(word: string)
    requires |word| == 9
    ensures LowerAscii(word) == "important" <==> SaysImportant(word)
  {
    var lower := LowerAscii(word);
    assert |lower| == 9;
    forall i | 0 <= i < 9 ensures lower[i] == "important"[i] <==> Letter(word[i], "important"[i]) {
    }
    assert lower == "important" <==> forall i :: 0 <= i < 9 ==> lower[i] == "important"[i];
  }

  lemma ImportantParts(d: string) returns (before: string, space: string, word: string)
    requires IsImportant(d)
    ensures d == before + "!" + space + word && AllSpace(space) && SaysImportant(word)
  {
    word := d[|d| - 9..];
    WordLowered(word);
    var front := d[..|d| - 9];
    space := TrimRightSplit(front);
    var kept := TrimRight(front);
    before := kept[..|kept| - 1];
    assert kept == before + "!" && d == front + word;
  }

  /** A declaration that is not important yet has ` !important` appended; blank ones go. */
  lemma MarkedOne(d: string)
    ensures Marked([d]) ==
            if Trim(d) == "" then [] else if IsImportant(Trim(d)) then [Trim(d)] else [Trim(d) + " !important"]
  {
    assert [d][1..] == [] && Marked([]) == [];
  }

  lemma {:induction false} MarkedEach(a: seq<string>, b: seq<string>)
    ensures Marked(a + b) == Marked(a) + Marked(b)
  {
    if a == [] {
      assert a + b == b;
    } else {
      assert (a + b)[1..] == a[1..] + b;
      MarkedEach(a[1..], b);
    }
  }
}

/** What the rewriting of a pseudo-class rule guarantees, on every text. */
module CssImportantProofs {
  import opened Text
  import opened CssScan
  import opened CssTokens
  import opened CssImportant

  // ------------------------------------------------------------ no comment is left

  /** Reading the text meets no comment. */
  predicate Clean(glued: bool, s: string)
    decreases |s|
  {
    s == "" ||
    match HeadOf(glued, s)
    case Whole(r) => Clean(false, s[r.len..])
    case Remark(_) => false
    case Single => Clean(IsNameChar(s[0]), s[1..])
  }

  lemma {:induction false} StripShrinks(glued: bool, s: string)
    ensures |Strip(glued, s)| <= |s|
    ensures !Clean(glued, s) ==> |Strip(glued, s)| < |s|
    decreases |s|
  {
    if s != "" {
      match HeadOf(glued, s)
      case Whole(r) => StripShrinks(false, s[r.len..]);
      case Remark(n) => StripShrinks(false, s[n..]);
      case Single => StripShrinks(IsNameChar(s[0]), s[1..]);
    }
  }

  lemma StripIsClean(css: string)
    ensures Clean(false, Strip(false, css))
  {
    StripIdempotent(css);
    StripShrinks(false, Strip(false, css));
  }

  // ------------------------------------------------------------ what follows does not matter

  lemma {:induction false} UntilClosed(end: char, s: string, x: string)
    requires Until(end, s).closed
    ensures Until(end, s + x) == Until(end, s)
  {
    if s[0] == '\\' {
      assert (s + x)[2..] == s[2..] + x;
      UntilClosed(end, s[2..], x);
    } else if s[0] != end {
      assert (s + x)[1..] == s[1..] + x;
      UntilClosed(end, s[1..], x);
    }
  }

  lemma {:induction false} UntilNever(end: char, x: string)
    requires forall i :: 0 <= i < |x| ==> x[i] != end
    ensures !Until(end, x).closed
    decreases |x|
  {
    if x != "" {
      if x[0] == '\\' && |x| > 1 {
        UntilNever(end, x[2..]);
      } else {
        UntilNever(end, x[1..]);
      }
    }
  }

  lemma {:induction false} UntilStaysOpen(end: char, s: string, x: string)
    requires !Until(end, s).closed && forall i :: 0 <= i < |x| ==> x[i] != end
    ensures !Until(end, s + x).closed
    decreases |s|
  {
    var t := s + x;
    if s == "" {
      assert t == x;
      UntilNever(end, x);
    } else if s[0] == '\\' && |s| == 1 {
      EscapesNext(end, s, x);
    } else if s[0] == '\\' {
      assert t[0] == s[0] && t[2..] == s[2..] + x;
      UntilStaysOpen(end, s[2..], x);
    } else {
      assert t[0] == s[0] && t[1..] == s[1..] + x;
      UntilStaysOpen(end, s[1..], x);
    }
  }

  /** A backslash at the end takes the first character of what follows with it. */
  lemma EscapesNext(end: char, s: string, x: string)
    requires |s| == 1 && s[0] == '\\' && forall i :: 0 <= i < |x| ==> x[i] != end
    ensures !Until(end, s + x).closed
  {
    var t := s + x;
    if x == "" {
      assert t == s;
    } else {
      assert t[0] == s[0] && t[2..] == x[1..];
      UntilNever(end, x[1..]);
    }
  }

  /** The text in front decides whether a quote is ahead, unless it is all white
      space and what follows begins with white space or a quote. */
  lemma {:induction false} QuoteAheadFront(s: string, x: string)
    requires QuoteAhead(s) || (x != "" && !IsSpace(x[0]) && !IsQuote(x[0])) || !QuoteAhead(x)
    ensures QuoteAhead(s + x) == QuoteAhead(s)
  {
    if s == "" {
      assert s + x == x;
    } else if IsSpace(s[0]) {
      assert (s + x)[1..] == s[1..] + x;
      QuoteAheadFront(s[1..], x);
    }
  }

  /** A text that starts with a semicolon or white space cannot lengthen what stands
      in front of it into a comment or an url. */
  predicate Apart(x: string) { x == "" || x[0] == ';' || IsSpace(x[0]) }

  /** What stands at the head in front stays there when harmless text follows. */
  predicate Stays(h: Head, h': Head) {
    match h
    case Whole(r) => h'.Whole? && (r.closed ==> h' == h)
    case Remark(_) => h'.Remark?
    case Single => h' == Single
  }

  lemma StringStays(glued: bool, s: string, x: string)
    requires s != "" && IsQuote(s[0])
    ensures Stays(HeadOf(glued, s), HeadOf(glued, s + x))
  {
    assert (s + x)[0] == s[0] && (s + x)[1..] == s[1..] + x;
    if Until(s[0], s[1..]).closed { UntilClosed(s[0], s[1..], x); }
    hide Until;
  }

  lemma SlashStays(glued: bool, s: string, x: string)
    requires s != "" && s[0] == '/' && Apart(x)
    ensures Stays(HeadOf(glued, s), HeadOf(glued, s + x))
  {
    var t := s + x;
    assert t[0] == s[0];
    assert |s| > 1 ==> t[1] == s[1];
    assert |s| == 1 && x != "" ==> t[1] == x[0];
    hide Until, CommentRest, QuoteAhead;
  }

  lemma SaysUrlStays(s: string, x: string)
    requires Apart(x)
    ensures SaysUrl(s + x) == SaysUrl(s)
  {
    var t := s + x;
    assert forall i :: 0 <= i < |s| ==> t[i] == s[i];
    assert x != "" ==> t[|s|] == x[0];
  }

  lemma NameStays(glued: bool, s: string, x: string)
    requires s != "" && !IsQuote(s[0]) && s[0] != '/'
    requires Apart(x) && ((x != "" && x[0] == ';') || !QuoteAhead(x))
    ensures Stays(HeadOf(glued, s), HeadOf(glued, s + x))
  {
    var t := s + x;
    assert t[0] == s[0];
    SaysUrlStays(s, x);
    if SaysUrl(s) {
      assert t[4..] == s[4..] + x;
      QuoteAheadFront(s[4..], x);
      if Until(')', s[4..]).closed { UntilClosed(')', s[4..], x); }
    }
    hide Until, SaysUrl, QuoteAhead, CommentRest;
  }

  /** A closed token or a single character in front is read the same, whatever
      semicolon or harmless text follows. */
  lemma HeadStays(glued: bool, s: string, x: string)
    requires s != "" && Apart(x) && ((x != "" && x[0] == ';') || !QuoteAhead(x))
    ensures Stays(HeadOf(glued, s), HeadOf(glued, s + x))
  {
    hide HeadOf, Stays, QuoteAhead;
    if IsQuote(s[0]) {
      StringStays(glued, s, x);
    } else if s[0] == '/' {
      SlashStays(glued, s, x);
    } else {
      NameStays(glued, s, x);
    }
  }

  lemma ClosedString(glued: bool, s: string, n: nat, y: string)
    requires s != "" && IsQuote(s[0]) && HeadOf(glued, s) == Whole(Reach(n, true))
    ensures HeadOf(glued, s[..n] + y) == Whole(Reach(n, true))
  {
    var quote, rest := s[0], s[1..];
    EscapedUntil(quote, rest);
    var body := rest[..n - 2];
    assert Escaped(quote, body) && rest[n - 2] == quote;
    hide Until, HeadOf;
    assert s[..n] + y == [quote] + body + [quote] + y;
    HeadQuoted(glued, quote, body, y);
  }

  lemma ClosedUrl(glued: bool, s: string, n: nat, y: string)
    requires s != "" && !IsQuote(s[0]) && HeadOf(glued, s) == Whole(Reach(n, true))
    ensures HeadOf(glued, s[..n] + y) == Whole(Reach(n, true))
  {
    var rest := s[4..];
    EscapedUntil(')', rest);
    var body := rest[..n - 5];
    QuoteAheadPrefix(rest, n - 5);
    assert IsUrlWord(s[..4]) && Escaped(')', body) && rest[n - 5] == ')' && !glued;
    hide Until, HeadOf, QuoteAhead, SaysUrl;
    assert s[..n] + y == s[..4] + body + ")" + y;
    HeadUrl(s[..4], body, y);
  }

  /** Whatever follows a closed token, the token is read the same. */
  lemma ClosedStays(glued: bool, s: string, n: nat, y: string)
    requires s != "" && HeadOf(glued, s) == Whole(Reach(n, true))
    ensures HeadOf(glued, s[..n] + y) == Whole(Reach(n, true))
  {
    hide HeadOf;
    if IsQuote(s[0]) { ClosedString(glued, s, n, y); } else { ClosedUrl(glued, s, n, y); }
  }

  // ------------------------------------------------------------ one piece

  /** A text that reads as one piece is one piece, and has no comment to strip. */
  lemma {:induction false} OnePiece(glued: bool, depth: nat, s: string)
    requires EndingOf(glued, depth, s) != Broken
    ensures Cuts(glued, depth, s) == [s] && Strip(glued, s) == s
    decreases |s|
  {
    hide HeadOf, IsNameChar, Deeper;
    if s != "" {
      EndingStep(glued, depth, s);
      match HeadOf(glued, s)
      case Whole(r) =>
        if r.closed {
          OnePiece(false, depth, s[r.len..]);
        } else {
          OpenPiece(glued, depth, s);
        }
        WholeStep(glued, depth, s, r);
        assert s[..r.len] + s[r.len..] == s;
        hide EndingOf, Cuts, Strip;
        FrontOf(s[..r.len], s[r.len..], [], "");
      case Single =>
        OnePiece(IsNameChar(s[0]), Deeper(s[0], depth), s[1..]);
        SingleStep(glued, depth, s);
        assert s[..1] + s[1..] == s;
        hide EndingOf, Cuts, Strip;
        FrontOf(s[..1], s[1..], [], "");
    }
  }

  /** An open token reaches to the end. */
  lemma OpenPiece(glued: bool, depth: nat, s: string)
    requires s != "" && HeadOf(glued, s).Whole? && !HeadOf(glued, s).reach.closed
    ensures var r := HeadOf(glued, s).reach;
            s[r.len..] == "" && Cuts(false, depth, s[r.len..]) == [""] && Strip(false, s[r.len..]) == ""
  {
  }

  lemma WholeStep(glued: bool, depth: nat, s: string, r: Reach)
    requires s != "" && HeadOf(glued, s) == Whole(r)
    ensures Cuts(glued, depth, s) == Prepend(s[..r.len], Cuts(false, depth, s[r.len..]))
    ensures Strip(glued, s) == s[..r.len] + Strip(false, s[r.len..])
  {
  }

  lemma SingleStep(glued: bool, depth: nat, s: string)
    requires s != "" && HeadOf(glued, s) == Single && !(s[0] == ';' && depth == 0)
    ensures Cuts(glued, depth, s) == Prepend(s[..1], Cuts(IsNameChar(s[0]), Deeper(s[0], depth), s[1..]))
    ensures Strip(glued, s) == s[..1] + Strip(IsNameChar(s[0]), s[1..])
  {
  }

  lemma FrontOf(p: string, rest: string, ds: seq<string>, x: string)
    ensures Prepend(p, [rest] + ds) == [p + rest] + ds
    ensures p + (rest + ";" + x) == p + rest + ";" + x
  {
  }

  /** A complete piece followed by a semicolon is cut off there, and is not changed by
      what comes after. */
  lemma {:induction false} CutOff(glued: bool, depth: nat, s: string, t: string)
    requires EndingOf(glued, depth, s) == Shut
    ensures Cuts(glued, depth, s + ";" + t) == [s] + Cuts(false, 0, t)
    ensures Strip(glued, s + ";" + t) == s + ";" + Strip(false, t)
    decreases |s|
  {
    var u := s + ";" + t;
    if s == "" {
      assert u == ";" + t && u[1..] == t;
      assert HeadOf(glued, u) == Single;
    } else {
      assert u == s + (";" + t);
      HeadStays(glued, s, ";" + t);
      var h := HeadOf(glued, s);
      var n := if h.Whole? then h.reach.len else 1;
      var rest := s[n..];
      assert u[..n] == s[..n] && u[n..] == rest + ";" + t && s[..n] + rest == s;
      FrontOf(s[..n], rest, Cuts(false, 0, t), Strip(false, t));
      if h.Whole? {
        CutOff(false, depth, rest, t);
        WholeStep(glued, depth, u, h.reach);
      } else {
        CutOff(IsNameChar(s[0]), Deeper(s[0], depth), rest, t);
        SingleStep(glued, depth, u);
      }
      hide *;
    }
  }

  // ------------------------------------------------------------ all pieces

  /** A list of pieces is recovered from its join, unchanged by stripping. */
  lemma {:induction false} PiecesRecovered(ds: seq<string>)
    requires ds != [] && Pieces(ds)
    ensures Cuts(false, 0, Join(ds)) == ds && Strip(false, Join(ds)) == Join(ds)
  {
    if |ds| == 1 {
      OnePiece(false, 0, ds[0]);
    } else {
      assert EndingOf(false, 0, ds[0]) == Shut;
      assert forall k :: 0 <= k < |ds| - 1 ==> ds[1..][k] == ds[k + 1];
      PiecesRecovered(ds[1..]);
      CutOff(false, 0, ds[0], Join(ds[1..]));
    }
  }

  /** In front of a semicolon a token cannot be shorter than it is read there. */
  lemma HeadInFront(glued: bool, s: string, t: string)
    requires s != ""
    ensures var h := HeadOf(glued, s + (";" + t));
            match h
            case Single => HeadOf(glued, s) == Single
            case Whole(r) => r.len <= |s| && r.closed ==> HeadOf(glued, s) == h
            case Remark(_) => true
  {
    var u := s + (";" + t);
    HeadStays(glued, s, ";" + t);
    match HeadOf(glued, u)
    case Whole(r) =>
      if r.len <= |s| && r.closed {
        assert u[..r.len] + s[r.len..] == s;
        ClosedStays(glued, u, r.len, s[r.len..]);
      }
    case _ =>
  }

  /** The first piece of a clean text: everything, or a complete piece and then a
      semicolon and the rest. */
  lemma {:induction false} FirstPiece(glued: bool, depth: nat, s: string) returns (t: string)
    requires Clean(glued, s)
    ensures var ds := Cuts(glued, depth, s);
            if |ds| == 1 then ds[0] == s && EndingOf(glued, depth, s) != Broken
            else s == ds[0] + ";" + t && EndingOf(glued, depth, ds[0]) == Shut
                 && Clean(false, t) && ds[1..] == Cuts(false, 0, t)
    decreases |s|
  {
    t := "";
    if s != "" {
      var h := HeadOf(glued, s);
      if h.Single? && s[0] == ';' && depth == 0 {
        t := s[1..];
        assert Cuts(glued, depth, s)[1..] == Cuts(false, 0, t);
      } else {
        var n := if h.Whole? then h.reach.len else 1;
        var g, d := h.Single? && IsNameChar(s[0]), if h.Whole? then depth else Deeper(s[0], depth);
        t := FirstPiece(g, d, s[n..]);
        var rest := Cuts(g, d, s[n..]);
        assert Cuts(glued, depth, s) == Prepend(s[..n], rest);
        assert s == s[..n] + s[n..];
        if |rest| > 1 {
          FirstGrows(glued, depth, s, n, g, d, rest[0], t);
        } else {
          assert h.Whole? && !h.reach.closed ==> EndingOf(glued, depth, s) == Ajar;
        }
      }
    }
  }

  /** A complete first piece stays complete with one more token in front. */
  lemma FirstGrows(glued: bool, depth: nat, s: string, n: nat, g: bool, d: nat, first: string, t: string)
    requires s != "" && 0 < n <= |s| && s[n..] == first + ";" + t && EndingOf(g, d, first) == Shut
    requires match HeadOf(glued, s)
             case Whole(r) => r.len == n && !g && d == depth
             case Single => n == 1 && g == IsNameChar(s[0]) && d == Deeper(s[0], depth) && !(s[0] == ';' && depth == 0)
             case Remark(_) => false
    ensures s == s[..n] + first + ";" + t && EndingOf(glued, depth, s[..n] + first) == Shut
  {
    hide EndingOf;
    var p := s[..n] + first;
    assert s == p + (";" + t);
    HeadInFront(glued, p, t);
    assert p[n..] == first && p[0] == s[0];
    EndingStep(glued, depth, p);
  }

  lemma EndingStep(glued: bool, depth: nat, s: string)
    requires s != ""
    ensures match HeadOf(glued, s)
            case Whole(r) => r.closed ==> EndingOf(glued, depth, s) == EndingOf(false, depth, s[r.len..])
            case Single =>
              !(s[0] == ';' && depth == 0) ==>
                EndingOf(glued, depth, s) == EndingOf(IsNameChar(s[0]), Deeper(s[0], depth), s[1..])
            case Remark(_) => EndingOf(glued, depth, s) == Broken
  {
  }

  /** The pieces of a clean text are pieces, and joining them gives the text back. */
  lemma {:induction false} CutsArePieces(s: string)
    requires Clean(false, s)
    ensures Pieces(Cuts(false, 0, s)) && Join(Cuts(false, 0, s)) == s
    decreases |s|
  {
    var ds := Cuts(false, 0, s);
    var t := FirstPiece(false, 0, s);
    if |ds| > 1 {
      CutsArePieces(t);
      forall k | 0 <= k < |ds|
        ensures EndingOf(false, 0, ds[k]) != Broken && (k < |ds| - 1 ==> EndingOf(false, 0, ds[k]) == Shut)
      {
        assert k > 0 ==> ds[k] == ds[1..][k - 1];
      }
    }
  }

  // ------------------------------------------------------------ trimming and marking

  /** White space in front, and no character that means anything to the scanners. */
  predicate Inert(x: string) {
    && (x != "" ==> IsSpace(x[0]))
    && forall i :: 0 <= i < |x| ==>
         !IsQuote(x[i]) && x[i] !in {'(', ')', ';', '/', 'u', 'U'}
  }

  lemma {:induction false} InertReads(glued: bool, depth: nat, x: string)
    requires forall i :: 0 <= i < |x| ==> !IsQuote(x[i]) && x[i] !in {'(', ')', ';', '/', 'u', 'U'}
    ensures EndingOf(glued, depth, x) == if depth == 0 then Shut else Ajar
    ensures !QuoteAhead(x)
    decreases |x|
  {
    if x != "" {
      InertReads(IsNameChar(x[0]), depth, x[1..]);
    }
  }

  lemma OpenStays(glued: bool, s: string, x: string)
    requires s != "" && Inert(x) && HeadOf(glued, s).Whole? && !HeadOf(glued, s).reach.closed
    ensures HeadOf(glued, s + x) == Whole(Reach(|s + x|, false))
  {
    InertReads(false, 0, x);
    HeadStays(glued, s, x);
    var k, end := if IsQuote(s[0]) then 1 else 4, if IsQuote(s[0]) then s[0] else ')';
    assert (s + x)[k..] == s[k..] + x;
    UntilStaysOpen(end, s[k..], x);
    hide QuoteAhead;
    hide Until;
  }

  lemma WholeKeeps(glued: bool, depth: nat, s: string, x: string)
    requires s != "" && Inert(x) && HeadOf(glued, s).Whole?
    ensures var r := HeadOf(glued, s).reach;
            if r.closed then
              EndingOf(glued, depth, s + x) == EndingOf(false, depth, s[r.len..] + x) &&
              EndingOf(glued, depth, s) == EndingOf(false, depth, s[r.len..])
            else EndingOf(glued, depth, s + x) == EndingOf(glued, depth, s)
  {
    var r := HeadOf(glued, s).reach;
    if r.closed {
      InertReads(false, 0, x);
      HeadStays(glued, s, x);
      assert (s + x)[r.len..] == s[r.len..] + x;
    } else {
      OpenStays(glued, s, x);
    }
    hide HeadOf;
    hide QuoteAhead;
  }

  lemma SingleKeeps(glued: bool, depth: nat, s: string, x: string)
    requires s != "" && Inert(x) && !HeadOf(glued, s).Whole?
    ensures if HeadOf(glued, s).Single? && !(s[0] == ';' && depth == 0) then
              var g, d := IsNameChar(s[0]), Deeper(s[0], depth);
              EndingOf(glued, depth, s + x) == EndingOf(g, d, s[1..] + x) &&
              EndingOf(glued, depth, s) == EndingOf(g, d, s[1..])
            else EndingOf(glued, depth, s + x) == EndingOf(glued, depth, s) == Broken
  {
    hide HeadOf, QuoteAhead, EndingOf, IsNameChar, Deeper;
    InertReads(false, 0, x);
    InertApart(x);
    HeadStays(glued, s, x);
    assert (s + x)[1..] == s[1..] + x && (s + x)[0] == s[0];
    SingleEnding(glued, depth, s);
    SingleEnding(glued, depth, s + x);
  }

  lemma InertApart(x: string)
    requires Inert(x)
    ensures Apart(x)
  {
  }

  lemma SingleEnding(glued: bool, depth: nat, s: string)
    requires s != "" && !HeadOf(glued, s).Whole?
    ensures EndingOf(glued, depth, s) ==
            if HeadOf(glued, s).Single? && !(s[0] == ';' && depth == 0)
            then EndingOf(IsNameChar(s[0]), Deeper(s[0], depth), s[1..]) else Broken
  {
  }

  /** Inert text at the end of a piece changes nothing in how it ends. */
  lemma {:induction false} EndingKeeps(glued: bool, depth: nat, s: string, x: string)
    requires Inert(x)
    ensures EndingOf(glued, depth, s + x) == EndingOf(glued, depth, s)
    decreases |s|
  {
    if s == "" {
      assert s + x == x;
      InertReads(glued, depth, x);
    } else {
      hide EndingOf;
      hide Inert;
      var h := HeadOf(glued, s);
      if h.Whole? {
        WholeKeeps(glued, depth, s, x);
        EndingKeeps(false, depth, s[h.reach.len..], x);
      } else {
        SingleKeeps(glued, depth, s, x);
        EndingKeeps(IsNameChar(s[0]), Deeper(s[0], depth), s[1..], x);
      }
      hide *;
    }
  }

  lemma SpaceStep(c: char, rest: string)
    requires IsSpace(c)
    ensures EndingOf(false, 0, [c] + rest) == EndingOf(false, 0, rest)
  {
    var s := [c] + rest;
    assert s[1..] == rest;
    assert HeadOf(false, s) == Single && !IsNameChar(c) && Deeper(c, 0) == 0;
    hide EndingOf, HeadOf;
    EndingStep(false, 0, s);
  }

  lemma {:induction false} EndingSkipsSpace(a: string, s: string)
    requires AllSpace(a)
    ensures EndingOf(false, 0, a + s) == EndingOf(false, 0, s)
  {
    hide EndingOf, IsSpace;
    if a == "" {
      assert a + s == s;
    } else {
      assert a + s == [a[0]] + (a[1..] + s);
      SpaceStep(a[0], a[1..] + s);
      EndingSkipsSpace(a[1..], s);
    }
  }

  lemma ImportantIsInert()
    ensures Inert(IMPORTANT)
  {
  }

  /** Trimming a piece and marking it changes nothing in how it ends. */
  lemma EndingMarked(d: string)
    ensures EndingOf(false, 0, Mark(Trim(d))) == EndingOf(false, 0, d)
  {
    var a, b := TrimSplit(d);
    ImportantIsInert();
    hide EndingOf;
    EndingKeeps(false, 0, a + Trim(d), b);
    EndingSkipsSpace(a, Trim(d));
    EndingKeeps(false, 0, Trim(d), IMPORTANT);
  }

  lemma MarkIsImportant(d: string)
    ensures IsImportant(Mark(d))
  {
    if !IsImportant(d) {
      var m := d + IMPORTANT;
      assert m[|m| - 9..] == "important";
      assert m[..|m| - 9] == d + " !";
    }
  }

  /** A declaration as it leaves the rewriting. */
  predicate Finished(m: string) { m != "" && Trimmed(m) && IsImportant(m) }

  lemma MarkFinishes(d: string)
    requires Trim(d) != ""
    ensures Finished(Mark(Trim(d)))
  {
    var a, b := TrimSplit(d);
    MarkIsImportant(Trim(d));
  }

  lemma {:induction false} MarkedFinished(ds: seq<string>)
    ensures forall k :: 0 <= k < |Marked(ds)| ==> Finished(Marked(ds)[k])
  {
    if ds != [] {
      MarkedFinished(ds[1..]);
      if Trim(ds[0]) != "" {
        MarkFinishes(ds[0]);
      }
    }
  }

  lemma {:induction false} FinishedUnchanged(ms: seq<string>)
    requires forall k :: 0 <= k < |ms| ==> Finished(ms[k])
    ensures Marked(ms) == ms
  {
    if ms != [] {
      assert Finished(ms[0]);
      assert "" + ms[0] + "" == ms[0];
      TrimUnique("", ms[0], "");
      FinishedUnchanged(ms[1..]);
    }
  }

  lemma {:induction false} MarkedPieces(ds: seq<string>)
    requires Pieces(ds)
    ensures Pieces(Marked(ds))
  {
    if ds != [] {
      assert forall k :: 0 <= k < |ds| - 1 ==> ds[1..][k] == ds[k + 1];
      MarkedPieces(ds[1..]);
      EndingMarked(ds[0]);
      if Trim(ds[0]) != "" {
        var ms, rest := Marked(ds), Marked(ds[1..]);
        assert rest != [] ==> |ds| > 1 && EndingOf(false, 0, ds[0]) == Shut;
        forall k | 0 <= k < |ms|
          ensures EndingOf(false, 0, ms[k]) != Broken && (k < |ms| - 1 ==> EndingOf(false, 0, ms[k]) == Shut)
        {
          assert k > 0 ==> ms[k] == rest[k - 1];
        }
      }
    }
  }

  // ------------------------------------------------------------ main results

  /** The cuts of a comment-free text are the one way to write it as pieces: complete
      ones joined by semicolons, and a last one that may have been left open. */
  lemma CutsCharacterised(s: string, es: seq<string>)
    requires Clean(false, s) && es != []
    ensures es == Cuts(false, 0, s) <==> Join(es) == s && Pieces(es)
  {
    CutsArePieces(s);
    if Join(es) == s && Pieces(es) {
      PiecesRecovered(es);
    }
  }

  /** Reading the result again finds exactly the declarations that were written, each
      trimmed, non-empty and important, on every input text. */
  lemma DeclarationsSurvive(css: string)
    ensures var ms := Marked(Cuts(false, 0, Strip(false, css)));
            && (forall k :: 0 <= k < |ms| ==> Finished(ms[k]))
            && Strip(false, Importantify(css)) == Importantify(css)
            && Cuts(false, 0, Importantify(css)) == if ms == [] then [""] else ms
  {
    var ds := Cuts(false, 0, Strip(false, css));
    StripIsClean(css);
    CutsArePieces(Strip(false, css));
    MarkedPieces(ds);
    MarkedFinished(ds);
    if Marked(ds) != [] {
      PiecesRecovered(Marked(ds));
    }
  }

  /** Rewriting a rewritten rule changes nothing, on every input text. */
  lemma ImportantifyIdempotent(css: string)
    ensures Importantify(Importantify(css)) == Importantify(css)
  {
    var ms := Marked(Cuts(false, 0, Strip(false, css)));
    DeclarationsSurvive(css);
    if ms == [] {
      assert Trim("") == "";
      assert Marked([""]) == [];
    } else {
      FinishedUnchanged(ms);
    }
  }
}

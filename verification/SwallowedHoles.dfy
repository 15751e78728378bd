/** Attributes with a hole at each end, which are taken for one hole. */
module SwallowedHoles {
  import opened Text
  import opened JsValues
  import opened Expressions
  import opened Holes
  import opened TemplateCompiler
  import opened TemplateMeaning
  import ExpressionSyntax
  import ExpressionAgreement

  /** Two or more holes that fill an attribute from end to end are taken for one, whose
      source runs from the first to the last. */
  lemma Swallowed(x: string, middle: string, y: string)
    requires y != ""
    ensures var raw := "{{" + x + "}}" + middle + "{{" + y + "}}";
            IsWhole(raw) && WholeSource(raw) == x + "}}" + middle + "{{" + y
  {
    var source := x + "}}" + middle + "{{" + y;
    WholeIs("", source, "");
    assert "" + "{{" + source + "}}" + "" == "{{" + x + "}}" + middle + "{{" + y + "}}";
  }

  /** Every square bracket that is opened in `s` is closed in it. */
  predicate ClosesSquares(s: string) {
    forall i :: 0 <= i <= |s| ==> Depth(Square, s[i..]) <= 0
  }

  /** The parentheses that `s` begins with are closed in it. */
  predicate ClosesRounds(s: string) {
    exists i :: 0 < i <= |s| && Depth(Round, s[..i]) == 0
  }

  /** A first source that keeps what is swallowed from being a text, where `last` ends the
      swallowed source: a name leaves no square bracket open, a parenthesis is closed again,
      and a quotation mark does not stand at both ends. So are `a`, ` rows[0].name `, `!done`,
      `(a === b)`, `12` and blanks. */
  predicate NeverText(source: string, last: char) {
    var t := Trim(source);
    t == "" ||
    if IsIdentStart(t[0]) then ClosesSquares(source)
    else if t[0] == '(' then ClosesRounds(t)
    else t[0] == '"' || t[0] == '\'' ==> last != t[0]
  }

  // What such a source denotes once more text has got into it.

  lemma StepChars(s: string)
    ensures forall j :: 0 <= j < StepLength(s) ==> IsIdentPart(s[j])
  {
  }

  /** Up to the bracket that closes one no more are closed than opened. */
  lemma {:induction false} OpenUntilClosed(e: string, from: nat, j: nat)
    requires from <= j <= |e| && j <= ClosingSquare(e, from, from)
    ensures Depth(Square, e[from..j]) >= 0
  {
    if from < j {
      OpenUntilClosed(e, from, j - 1);
      SliceGrows(e, from, j - 1);
    }
  }

  /** A bracket that is closed before `n` is closed where the path evaluator looks for it. */
  lemma ClosedBefore(e: string, i: nat, n: nat)
    requires i < n <= |e| && e[i] == '[' && Depth(Square, e[i..n]) <= 0
    ensures ClosingSquare(e, i + 1, i + 1) < n
  {
    assert [e[i]][..0] == "" && Depth(Square, [e[i]]) == 1;
    hide Depth, ClosingSquare;
    assert e[i..n] == [e[i]] + e[i + 1..n];
    DepthConcat(Square, [e[i]], e[i + 1..n]);
    if n <= ClosingSquare(e, i + 1, i + 1) {
      OpenUntilClosed(e, i + 1, n);
    }
  }

  /** The text before `n` leaves no square bracket open from any place on. */
  predicate ClosesUntil(e: string, n: nat)
    requires n <= |e|
  {
    forall k :: 0 <= k <= n ==> Depth(Square, e[k..n]) <= 0
  }

  /** A path that meets a closing brace outside its brackets denotes nothing. */
  lemma {:induction false} PathStopsAtBrace(w: World, vals: Scope, e: string, i: nat, cur: JsValue, n: nat)
    requires i <= n < |e| && e[n] == '}' && ClosesUntil(e, n)
    ensures PathFrom(w, vals, e, i, cur) == Undefined
    decreases |e| - i
  {
    hide PathFrom, Resolve, StepLength, ClosingSquare;
    PathStep(w, vals, e, i, cur);
    if e[i] == '.' {
      StepChars(e[i + 1..]);
      var m := StepLength(e[i + 1..]);
      if m > 0 {
        assert forall j :: i + 1 <= j < i + 1 + m ==>
            IsIdentPart(e[i + 1..][j - i - 1]) && e[j] == e[i + 1..][j - i - 1];
        assert i + 1 + m <= n;
        PathStopsAtBrace(w, vals, e, i + 1 + m, Member(w, cur, Str(e[i + 1..i + 1 + m])), n);
      }
    } else if e[i] == '[' {
      ClosedBefore(e, i, n);
      var j := ClosingSquare(e, i + 1, i + 1);
      PathStopsAtBrace(w, vals, e, j + 1, Member(w, cur, Resolve(w, vals, e[i + 1..j])), n);
    }
  }

  lemma NoNumber(e: string)
    requires '}' in e
    ensures !IsNumber(e)
  {
    if IsNumber(e) {
      ExpressionSyntax.NumberChars(e);
      hide IsNumber;
    }
  }

  /** A text with a closing brace in it is neither a literal nor a keyword: without a negation
      in front and quotation marks at both ends it is a path. */
  lemma ReadAsPath(w: World, vals: Scope, e: string)
    requires '}' in e && e[0] != '!' && (e[0] == '"' || e[0] == '\'' ==> e[|e| - 1] != e[0])
    ensures ResolveUnary(w, vals, e) == ResolvePath(w, vals, e)
  {
    assert '}' !in "true" && '}' !in "false" && '}' !in "null" && '}' !in "undefined";
    NoNumber(e);
    hide Resolve, ResolvePath, NumberValue, IsNumber;
  }

  /** A parenthesis that is closed before the end does not wrap the whole. */
  lemma ClosedEarly(e: string, t: string)
    requires t != "" && t[0] == '(' && ClosesRounds(t) && |t| < |e| && e[..|t|] == t
    ensures !ParensWrapWhole(e)
  {
    var i :| 0 < i <= |t| && Depth(Round, t[..i]) == 0;
    var front := t[..i];
    assert front[..1] == ['('] && [front[0]][..0] == "" && Depth(Round, ['(']) == 1;
    assert 1 <= |front| && Depth(Round, front[..1]) > 0;
    var k := ExpressionAgreement.ReturnsToZero(front, 1);
    hide Depth;
    assert e[k] == t[k] == front[k] == ')';
    assert e[..k + 1] == front[..k + 1] by { assert forall j :: 0 <= j <= k ==> e[j] == t[j] == front[j]; }
  }

  /** Nothing where no operator is found outside brackets and no negation stands in front, and
      a truth value otherwise: never a text. */
  lemma HeadIntoBrace(w: World, vals: Scope, e: string, t: string, n: nat)
    requires 0 <= n < |e| && e[n] == '}'
    requires if t == "" then n == 0 else |t| <= n && e[..|t|] == t
    requires t != "" && IsIdentStart(t[0]) ==> ClosesUntil(e, n)
    requires t != "" && t[0] == '(' ==> ClosesRounds(t)
    requires e[0] == '"' || e[0] == '\'' ==> e[|e| - 1] != e[0]
    ensures var v := ResolveTrimmed(w, vals, e);
            if TopLevelEquality(e) == NotFound && e[0] != '!' then v == Undefined else v.Bool?
  {
    hide ResolvePath, PathFrom, TopLevelEquality;
    assert t != "" ==> e[0] == t[0];
    assert e[0] == '(' ==> !ParensWrapWhole(e) by {
      if e[0] == '(' { ClosedEarly(e, t); }
    }
    hide ParensWrapWhole, Resolve;
    if TopLevelEquality(e) == NotFound && e[0] != '!' {
      ReadAsPath(w, vals, e);
      hide ResolveUnary;
      if IsIdentStart(e[0]) {
        PathIntoBrace(w, vals, e, n);
      } else {
        PathStart(w, vals, e);
      }
    }
  }

  lemma PathIntoBrace(w: World, vals: Scope, e: string, n: nat)
    requires 0 < n < |e| && IsIdentStart(e[0]) && e[n] == '}' && ClosesUntil(e, n)
    ensures ResolvePath(w, vals, e) == Undefined
  {
    hide PathFrom;
    var m := IdentLength(e);
    assert forall j :: 0 <= j < m ==> IsIdentPart(e[j]);
    assert m <= n;
    PathStopsAtBrace(w, vals, e, m, Lookup(w, vals, e[..m]), n);
  }

  // Where the source of the one hole comes from.

  /** There is one first character that is no white space. */
  lemma FirstInk(s: string, i: nat, j: nat)
    requires i < |s| && AllSpace(s[..i]) && !IsSpace(s[i])
    requires j < |s| && AllSpace(s[..j]) && !IsSpace(s[j])
    ensures i == j
  {
    forall k | 0 <= k < i ensures IsSpace(s[k]) { assert s[..i][k] == s[k]; }
    forall k | 0 <= k < j ensures IsSpace(s[k]) { assert s[..j][k] == s[k]; }
  }

  /** A character that is no white space stands before the white space at the end. */
  lemma BeforeTail(s: string, z: nat, k: nat)
    requires z <= |s| && AllSpace(s[|s| - z..]) && k < |s| && !IsSpace(s[k])
    ensures k < |s| - z
  {
    forall j | |s| - z <= j < |s| ensures IsSpace(s[j]) { assert s[|s| - z..][j - (|s| - z)] == s[j]; }
  }

  /** Trimming keeps everything from the first character that is no white space on. */
  lemma TrimFrom(s: string, k: nat) returns (z: nat)
    requires k < |s| && !IsSpace(s[k]) && AllSpace(s[..k])
    ensures k + z < |s| && Trim(s) == s[k..|s| - z] && AllSpace(s[|s| - z..])
  {
    var a, b := TrimSplit(s);
    var t := Trim(s);
    z := |b|;
    assert s[|s| - z..] == b;
    BeforeTail(s, z, k);
    assert s[..|a|] == a;
    forall j | 0 <= j < |a| ensures IsSpace(s[j]) { assert s[j] == a[j]; }
    assert t[0] == s[|a|];
    FirstInk(s, k, |a|);
    assert s[k..|s| - z] == t;
  }

  /** A whole attribute of two or more holes has nothing before the first of them. */
  lemma NothingBefore(m: Mixed)
    requires Proper(m) && m.Then? && IsWhole(Print(m))
    ensures AllSpace(m.text)
  {
    hide Proper;
    var raw, text := Print(m), m.text;
    var a, b := TrimSplit(raw);
    var t := Trim(raw);
    BracesFirst(raw, a, t, b);
    assert OpensFirst(text) by { ProperOpens(m); }
    TextLeads(m);
    BracesAfterText(raw, text, |a|);
    assert forall i :: 0 <= i < |text| ==> text[i] == raw[i] && raw[i] == a[i];
  }

  lemma ProperOpens(m: Mixed)
    requires Proper(m) && m.Then?
    ensures OpensFirst(m.text)
  {
  }

  lemma TextLeads(m: Mixed)
    requires m.Then?
    ensures var raw := Print(m);
            |m.text| + 2 <= |raw| && raw[..|m.text|] == m.text && raw[|m.text|] == '{' && raw[|m.text| + 1] == '{'
  {
    var rest := m.source + "}}" + Print(m.rest);
    assert Print(m) == m.text + ("{{" + rest);
  }

  lemma BracesFirst(raw: string, a: string, t: string, b: string)
    requires raw == a + t + b && t == Trim(raw) && IsWhole(raw)
    ensures |a| + 2 <= |raw| && raw[|a|] == '{' && raw[|a| + 1] == '{'
  {
    assert raw[|a|] == t[..2][0] && raw[|a| + 1] == t[..2][1];
  }

  /** Two braces do not stand before the end of a text that opens its hole first. */
  lemma BracesAfterText(raw: string, text: string, p: nat)
    requires OpensFirst(text) && |text| + 2 <= |raw| && raw[..|text|] == text
        && raw[|text|] == '{' && raw[|text| + 1] == '{'
    requires p + 2 <= |raw| && raw[p] == '{' && raw[p + 1] == '{'
    ensures |text| <= p
  {
    var t := text + "{{";
    assert forall i :: 0 <= i < |text| + 2 ==> t[i] == if i < |text| then raw[..|text|][i] else raw[i];
    assert p < |text| ==> PairAt(t, '{', p);
  }

  /** The one source begins with the first source and goes on with its closing braces. */
  lemma SourceGoesOn(m: Mixed)
    requires Proper(m) && m.Then? && m.rest.Then? && IsWhole(Print(m))
    ensures var ws := WholeSource(Print(m));
            |m.source| < |ws| && ws[..|m.source|] == m.source && ws[|m.source|] == '}'
  {
    NothingBefore(m);
    TextLeads(m);
    TextLeads(m.rest);
    hide Proper;
    var raw, text, source, tail := Print(m), m.text, m.source, Print(m.rest);
    var z := TrimFrom(raw, |text|);
    HolePieces(text, source, tail);
    var k := |raw| - |tail| + |m.rest.text|;
    assert raw[k] == tail[|m.rest.text|];
    BeforeTail(raw, z, k);
    SourceCut(raw, text, source, tail, z);
  }

  lemma SourceCut(raw: string, text: string, source: string, tail: string, z: nat)
    requires raw == text + "{{" + source + "}}" + tail && z < |tail|
    ensures var t := raw[|text|..|raw| - z];
            |t| >= 5 && var ws := t[2..|t| - 2];
            |source| < |ws| && ws[..|source|] == source && ws[|source|] == '}'
  {
    var t := raw[|text|..|raw| - z];
    var ws := t[2..|t| - 2];
    assert |t| == 4 + |source| + |tail| - z;
    forall i | 0 <= i < |source| ensures ws[i] == source[i] {
      assert ws[i] == raw[|text| + 2 + i];
    }
    assert ws[|source|] == raw[|text| + 2 + |source|];
  }

  /** The last character of the one source. */
  function LastOf(raw: string): char
    requires IsWhole(raw)
  {
    var e := Trim(WholeSource(raw));
    if e == "" then ' ' else e[|e| - 1]
  }

  /** So the value of a swallowed attribute with such a first source is nothing or a truth
      value, whatever is bound and whatever stands in between. */
  lemma SwallowedValue(w: World, m: Mixed, bindings: Bindings)
    requires Proper(m) && m.Then? && m.rest.Then? && IsWhole(Print(m)) && NeverText(m.source, LastOf(Print(m)))
    ensures var v, e := CompileAttr(w, Print(m))(bindings), Trim(WholeSource(Print(m)));
            e != "" && if TopLevelEquality(e) == NotFound && e[0] != '!' then v == Undefined else v.Bool?
  {
    hide Resolve, IsWhole, TopLevelEquality, Proper;
    var ws := WholeSource(Print(m));
    SourceGoesOn(m);
    var n := HeadInside(ws, m.source);
    hide ClosesSquares, ClosesRounds, ClosesUntil, Trim;
    HeadIntoBrace(w, Scope(bindings), Trim(ws), Trim(m.source), n);
    ResolvesTrimmed(w, Scope(bindings), ws);
  }

  lemma ResolvesTrimmed(w: World, vals: Scope, s: string)
    ensures Resolve(w, vals, s) == ResolveTrimmed(w, vals, Trim(s))
  {
    hide ResolveTrimmed;
  }

  /** Where the first source stands in the trimmed one: in front, its brace behind it. */
  lemma HeadInside(ws: string, source: string) returns (n: nat)
    requires |source| < |ws| && ws[..|source|] == source && ws[|source|] == '}'
    ensures n < |Trim(ws)| && Trim(ws)[n] == '}'
    ensures var t := Trim(source); if t == "" then n == 0 else |t| <= n && Trim(ws)[..|t|] == t
    ensures ClosesSquares(source) ==> ClosesUntil(Trim(ws), n)
  {
    hide ClosesSquares, ClosesUntil, Trim;
    var a, b := TrimSplit(source);
    var t, e := Trim(source), Trim(ws);
    var k := if t == "" then |source| else |a|;
    Blank(ws, a, t, b, k);
    hide IsSpace, AllSpace;
    var z := FromInk(ws, source, k);
    n := |source| - k;
    Slices(ws, e, source, a, t, b, k, z);
    if ClosesSquares(source) { SourceCloses(e, source, k, n); }
  }

  lemma FromInk(ws: string, source: string, k: nat) returns (z: nat)
    requires |source| < |ws| && ws[|source|] == '}' && k <= |source| && !IsSpace(ws[k]) && AllSpace(ws[..k])
    ensures |source| + z < |ws| && Trim(ws) == ws[k..|ws| - z]
  {
    z := TrimFrom(ws, k);
    BeforeTail(ws, z, |source|);
  }

  lemma Slices(ws: string, e: string, source: string, a: string, t: string, b: string, k: nat, z: nat)
    requires source == a + t + b && k == if t == "" then |source| else |a|
    requires |source| + z < |ws| && ws[..|source|] == source && e == ws[k..|ws| - z]
    ensures |source| - k < |e| && e[|source| - k] == ws[|source|]
    ensures forall j :: 0 <= j < |source| - k ==> e[j] == source[k + j]
    ensures t != "" ==> |t| <= |source| - k && e[..|t|] == t
  {
    assert forall j :: 0 <= j < |source| ==> ws[j] == source[j];
    assert forall j :: 0 <= j <= |source| - k ==> e[j] == ws[k + j];
    if t != "" { assert forall j :: 0 <= j < |t| ==> t[j] == source[|a| + j]; }
  }

  /** White space and then the first other character. */
  lemma Blank(ws: string, a: string, t: string, b: string, k: nat)
    requires AllSpace(a) && AllSpace(b) && Trimmed(t) && |a + t + b| < |ws|
    requires ws[..|a + t + b|] == a + t + b && ws[|a + t + b|] == '}'
    requires k == if t == "" then |a + t + b| else |a|
    ensures !IsSpace(ws[k]) && AllSpace(ws[..k])
  {
    var source := a + t + b;
    assert forall j :: 0 <= j < |source| ==> source[j] == ws[j];
    if t == "" {
      assert source == a + b;
    } else {
      assert source[k] == t[0] && ws[..k] == a;
    }
  }

  lemma SourceCloses(t: string, source: string, k: nat, n: nat)
    requires ClosesSquares(source) && k + n == |source| && n <= |t|
    requires forall j :: 0 <= j < n ==> t[j] == source[k + j]
    ensures ClosesUntil(t, n)
  {
    forall j | 0 <= j <= n ensures Depth(Square, t[j..n]) <= 0 {
      assert t[j..n] == source[k + j..];
    }
  }

  /** The exact condition: an attribute of two or more holes, where what is swallowed cannot
      be a text, denotes its woven text if and only if it is not taken for one hole. */
  lemma SeveralHolesIff(w: World, m: Mixed, bindings: Bindings)
    requires Proper(m) && m.Then? && m.rest.Then?
    requires IsWhole(Print(m)) ==> NeverText(m.source, LastOf(Print(m)))
    ensures CompileAttr(w, Print(m))(bindings) == Str(WovenText(w, m, bindings)) <==> !IsWhole(Print(m))
  {
    hide Resolve, Proper, IsWhole, CompileAttr, WovenText, TopLevelEquality, NeverText, LastOf;
    if IsWhole(Print(m)) {
      SwallowedValue(w, m, bindings);
    } else {
      AttrCompiled(w, Woven(m), bindings);
    }
  }

  function OpenSquare(): Mixed { Then("", "a[", Then("x", "]", Last(""))) }

  /** Closing the brackets is needed: `{{a[}}x{{]}}` can denote its woven text `x`, though it
      is taken for one hole. */
  lemma OpenSquareDenotesText(w: World, bindings: Bindings)
    requires Member(w, Lookup(w, Scope(bindings), "a"), Undefined) == Str("x")
    ensures Proper(OpenSquare()) && IsWhole(Print(OpenSquare()))
    ensures CompileAttr(w, Print(OpenSquare()))(bindings) == Str("x") == Str(WovenText(w, OpenSquare(), bindings))
  {
    OpenSquareRead();
    OpenSquareWoven(w, bindings);
    AcrossTheBracket(w, Scope(bindings));
    hide Resolve, Proper, IsWhole, WholeSource, Print, WovenText;
  }

  lemma OpenSquareRead()
    ensures Proper(OpenSquare())
    ensures IsWhole(Print(OpenSquare())) && WholeSource(Print(OpenSquare())) == "a[}}x{{]"
  {
    OpenSquareProper();
    OpenSquarePrint();
    hide Print, IsWhole, WholeSource, Proper;
    Swallowed("a[", "x", "]");
    assert "{{" + "a[" + "}}" + "x" + "{{" + "]" + "}}" == "{{a[}}x{{]}}";
    assert "a[" + "}}" + "x" + "{{" + "]" == "a[}}x{{]";
  }

  lemma OpenSquareProper()
    ensures Proper(OpenSquare())
  {
    var m := OpenSquare();
    assert Proper(m.rest.rest);
    assert Proper(m.rest);
  }

  lemma OpenSquarePrint()
    ensures Print(OpenSquare()) == "{{a[}}x{{]}}"
  {
    var m := OpenSquare();
    assert Print(m.rest.rest) == "";
    assert Print(m.rest) == "x{{]}}";
  }

  lemma OpenSquareWoven(w: World, bindings: Bindings)
    ensures WovenText(w, OpenSquare(), bindings) == "x"
  {
    hide Resolve;
    var m := OpenSquare();
    OpenBracket(w, Scope(bindings));
    BracketInFront(w, Scope(bindings), "]");
    assert WovenText(w, m.rest.rest, bindings) == "";
    assert WovenText(w, m.rest, bindings) == "x" + "" + "";
  }

  /** A trimmed text without parenthesis in front and without equality sign. */
  lemma NoEquality(w: World, vals: Scope, e: string)
    requires e != "" && Trimmed(e) && e[0] != '(' && '=' !in e
    ensures Resolve(w, vals, e) == ResolveUnary(w, vals, e)
  {
    TrimUnique("", e, "");
    assert "" + e + "" == e;
    hide Resolve, ResolveUnary, Trim;
    assert TopLevelEquality(e) == NotFound;
    ResolvesTrimmed(w, vals, e);
  }

  /** A brace or a bracket in front denotes nothing. */
  lemma BracketInFront(w: World, vals: Scope, e: string)
    requires e != "" && (e[0] == '}' || e[0] == ']') && Trimmed(e) && '=' !in e
    ensures Resolve(w, vals, e) == Undefined
  {
    NoEquality(w, vals, e);
    assert !IsNumber(e);
    hide Resolve, PathFrom;
    PathStart(w, vals, e);
  }

  lemma OpenBracket(w: World, vals: Scope)
    ensures Resolve(w, vals, "a[") == Undefined
  {
    var e := "a[";
    NoEquality(w, vals, e);
    PathStart(w, vals, e);
    PathStep(w, vals, e, 1, Lookup(w, vals, "a"));
    assert !IsNumber(e);
    hide Resolve, PathFrom, IsNumber;
    OneLetter(e);
    assert e[..1] == "a";
    assert ResolvePath(w, vals, e) == Undefined;
  }

  lemma AcrossTheBracket(w: World, vals: Scope)
    ensures Resolve(w, vals, "a[}}x{{]") == Member(w, Lookup(w, vals, "a"), Undefined)
  {
    hide Resolve, ResolveUnary, ResolvePath, PathFrom, IsNumber, IdentLength, ClosingSquare, Lookup, Member, Trim;
    var e := "a[}}x{{]";
    NoEquality(w, vals, e);
    ReadAsPath(w, vals, e);
    PathStart(w, vals, e);
    OneLetter(e);
    assert e[..1] == "a";
    var cur := Lookup(w, vals, "a");
    PathStep(w, vals, e, 1, cur);
    OuterClosing();
    var key := e[2..7];
    assert key == "}}x{{";
    BracketInFront(w, vals, key);
    PathStep(w, vals, e, 8, Member(w, cur, Undefined));
  }

  lemma OneLetter(e: string)
    requires |e| >= 2 && e[0] == 'a' && e[1] == '['
    ensures IdentLength(e) == 1
  {
    assert e[1..][0] == '[';
  }

  lemma OuterClosing()
    ensures ClosingSquare("a[}}x{{]", 2, 2) == 7
  {
    var e := "a[}}x{{]";
    var t := e[2..7];
    assert t == "}}x{{";
    DepthWithout(Square, t);
    var k := ClosingSquare(e, 2, 2);
    assert forall j :: 2 <= j < 7 ==> e[j] != ']';
  }
}

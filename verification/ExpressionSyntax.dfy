/** An independent reading of the expression language: trees, how they are written,
    and what they mean. The evaluator, which never builds a tree, agrees with it.

    The second half shows what the scanners can rely on in the text of a tree: brackets
    nest, and operators outside them are only those that were written there. */
module ExpressionSyntax {
  import opened Text
  import opened JsValues
  import opened Expressions

  datatype Expr =
    | ETrue
    | EFalse
    | ENull
    | EUndefined
    | ENumber(text: string)
    | EString(quote: char, body: string)
    | EName(name: string)
    | EDot(base: Expr, step: string)
    | EIndex(base: Expr, key: Expr)
    | ENot(arg: Expr)
    | EEqual(op: EqualityOp, left: Expr, right: Expr)
    | EParen(inner: Expr)
    | EPad(before: string, core: Expr, after: string)

  function Print(e: Expr): string {
    match e
    case ETrue => "true"
    case EFalse => "false"
    case ENull => "null"
    case EUndefined => "undefined"
    case ENumber(text) => text
    case EString(quote, body) => [quote] + body + [quote]
    case EName(name) => name
    case EDot(base, step) => Print(base) + "." + step
    case EIndex(base, key) => Print(base) + "[" + Print(key) + "]"
    case ENot(arg) => "!" + Print(arg)
    case EEqual(op, left, right) => Print(left) + OpText(op) + Print(right)
    case EParen(inner) => "(" + Print(inner) + ")"
    case EPad(before, core, after) => before + Print(core) + after
  }

  function Denote(w: World, vals: Scope, e: Expr): JsValue {
    match e
    case ETrue => Bool(true)
    case EFalse => Bool(false)
    case ENull => Null
    case EUndefined => Undefined
    case ENumber(text) => Num(NumberValue(text))
    case EString(_, body) => Str(body)
    case EName(name) => Lookup(w, vals, name)
    case EDot(base, step) => Member(w, Denote(w, vals, base), Str(step))
    case EIndex(base, key) => Member(w, Denote(w, vals, base), Denote(w, vals, key))
    case ENot(arg) => Bool(!Truthy(Denote(w, vals, arg)))
    case EEqual(op, left, right) => Compare(w, op, Denote(w, vals, left), Denote(w, vals, right))
    case EParen(inner) => Denote(w, vals, inner)
    case EPad(_, core, _) => Denote(w, vals, core)
  }

  /** No equality at the top, under any padding: what may stand left of an equality
      operator or after a negation. */
  predicate Unary(e: Expr) {
    match e
    case EEqual(_, _, _) => false
    case EPad(_, core, _) => Unary(core)
    case _ => true
  }

  predicate IsIdent(s: string) { s != "" && IdentLength(s) == |s| }

  predicate IsStep(s: string) { s != "" && StepLength(s) == |s| }

  predicate IsKeyword(s: string) {
    s == "true" || s == "false" || s == "null" || s == "undefined"
  }

  /** Outside all brackets of `s` no `==` or `!=` begins. */
  predicate NoTopEquality(s: string) {
    forall i :: 0 <= i < |s| - 1 && (s[i] == '=' || s[i] == '!') && s[i + 1] == '=' ==>
      BothDepth(s[..i]) != 0
  }

  predicate IsPath(e: Expr)
    decreases e, 0
  {
    match e
    case EName(name) => IsIdent(name)
    case EDot(base, step) => IsPath(base) && IsStep(step)
    case EIndex(base, key) => IsPath(base) && WellFormed(key)
    case _ => false
  }

  /** The written forms the evaluator is meant for. A string literal may hold any
      text whose brackets pair up and whose equality operators are bracketed: the
      scanners do not know about quotes. */
  predicate WellFormed(e: Expr)
    decreases e, 1
  {
    match e
    case ENumber(text) => IsNumber(text)
    case EString(quote, body) =>
      && (quote == '"' || quote == '\'')
      && Nested(Round, body) && Nested(Square, body) && NoTopEquality(body)
    case EName(name) => IsPath(e) && !IsKeyword(name)
    case EDot(_, _) => IsPath(e)
    case EIndex(_, _) => IsPath(e)
    case ENot(arg) => WellFormed(arg) && Unary(arg)
    case EEqual(_, left, right) => WellFormed(left) && Unary(left) && WellFormed(right)
    case EParen(inner) => WellFormed(inner)
    case EPad(before, core, after) => AllSpace(before) && AllSpace(after) && WellFormed(core)
    case _ => true
  }

  // ------------------------------------------------------------ shape of the text

  /** Bracket-wise complete, and no part of an equality operator at either end. */
  ghost predicate Solid(s: string) {
    && s != "" && s[0] != '=' && s[|s| - 1] != '=' && s[|s| - 1] != '!'
    && Nested(Round, s) && Nested(Square, s)
  }

  /** Solid, and without an equality of its own at the top. */
  ghost predicate Quiet(s: string) { Solid(s) && NoTopEquality(s) }

  lemma BothDepthConcat(a: string, b: string)
    ensures BothDepth(a + b) == BothDepth(a) + BothDepth(b)
  {
    DepthConcat(Round, a, b);
    DepthConcat(Square, a, b);
  }

  lemma NoTopEqualityConcat(a: string, b: string)
    requires NoTopEquality(a) && NoTopEquality(b) && BothDepth(a) == 0
    requires b == "" || b[0] != '='
    ensures NoTopEquality(a + b)
  {
    var s := a + b;
    forall i | 0 <= i < |s| - 1 && (s[i] == '=' || s[i] == '!') && s[i + 1] == '='
      ensures BothDepth(s[..i]) != 0
    {
      if i < |a| {
        assert i + 1 < |a|;
        assert s[..i] == a[..i];
      } else {
        assert s[..i] == a + b[..i - |a|];
        BothDepthConcat(a, b[..i - |a|]);
      }
    }
  }

  lemma SolidConcat(a: string, b: string)
    requires Solid(a) && Solid(b)
    ensures Solid(a + b)
  {
    NestedConcat(Round, a, b);
    NestedConcat(Square, a, b);
  }

  lemma QuietConcat(a: string, b: string)
    requires Quiet(a) && Quiet(b)
    ensures Quiet(a + b)
  {
    SolidConcat(a, b);
    NoTopEqualityConcat(a, b);
  }

  lemma QuietBracketed(k: Bracket, s: string)
    requires Solid(s)
    ensures Quiet([Open(k)] + s + [Close(k)])
  {
    var t := [Open(k)] + s + [Close(k)];
    NestedWrap(Round, k, s);
    NestedWrap(Square, k, s);
    forall i | 0 <= i < |t| - 1 && (t[i] == '=' || t[i] == '!') && t[i + 1] == '='
      ensures BothDepth(t[..i]) != 0
    {
      DepthInside(Round, k, s, i - 1);
      DepthInside(Square, k, s, i - 1);
    }
  }

  /** No bracket and no operator character. */
  predicate IsPlain(c: char) {
    c != '(' && c != ')' && c != '[' && c != ']' && c != '=' && c != '!'
  }

  lemma PlainQuiet(s: string)
    requires s != "" && forall i :: 0 <= i < |s| ==> IsPlain(s[i])
    ensures Quiet(s)
  {
    NestedWithout(Round, s);
    NestedWithout(Square, s);
  }

  /** White space on either side changes nothing. */
  lemma PadSolid(a: string, t: string, b: string)
    requires AllSpace(a) && AllSpace(b) && Solid(t)
    ensures Solid(a + t) && Solid(t + b) && Solid(a + t + b)
  {
    if a != "" { PlainQuiet(a); SolidConcat(a, t); } else { assert a + t == t; }
    if b != "" { PlainQuiet(b); SolidConcat(t, b); SolidConcat(a + t, b); }
    else { assert t + b == t && a + t + b == a + t; }
  }

  lemma PadQuiet(a: string, t: string, b: string)
    requires AllSpace(a) && AllSpace(b) && Quiet(t)
    ensures Quiet(a + t) && Quiet(t + b)
  {
    if a != "" { PlainQuiet(a); QuietConcat(a, t); } else { assert a + t == t; }
    if b != "" { PlainQuiet(b); QuietConcat(t, b); } else { assert t + b == t; }
  }

  lemma StepShape(s: string)
    requires IsIdent(s) || IsStep(s)
    ensures forall i :: 0 <= i < |s| ==> IsIdentPart(s[i])
    ensures Quiet(s) && Trimmed(s)
  {
    hide Quiet;
    assert forall i :: 0 <= i < |s| ==> IsIdentPart(s[i]);
    PlainQuiet(s);
  }

  lemma NumberChars(s: string)
    requires IsNumber(s)
    ensures forall i :: 0 <= i < |s| ==> IsDigit(s[i]) || s[i] == '-' || s[i] == '.'
    ensures s != "" && (IsDigit(s[0]) || s[0] == '-') && IsDigit(s[|s| - 1])
  {
    var body := if s[0] == '-' then s[1..] else s;
    BodyChars(body);
    var k := |s| - |body|;
    assert forall i :: k <= i < |s| ==> s[i] == body[i - k];
    hide DigitSpan;
  }

  /** The digits of a number, with at most one dot inside. */
  lemma BodyChars(body: string)
    requires var n := DigitSpan(body);
             n > 0 && (n == |body| || (body[n] == '.' && n + 1 < |body| && DigitSpan(body[n + 1..]) == |body| - n - 1))
    ensures forall i :: 0 <= i < |body| ==> IsDigit(body[i]) || body[i] == '.'
    ensures body != "" && IsDigit(body[0]) && IsDigit(body[|body| - 1])
  {
    var n := DigitSpan(body);
    if n < |body| {
      var fraction := body[n + 1..];
      assert DigitSpan(fraction) == |fraction|;
      assert forall j :: 0 <= j < |fraction| ==> IsDigit(fraction[j]);
      hide DigitSpan, IsDigit;
      forall i | n < i < |body| ensures IsDigit(body[i]) {
        assert body[i] == fraction[i - n - 1];
      }
    }
  }

  lemma NumberChar(c: char)
    requires IsDigit(c) || c == '-' || c == '.'
    ensures IsPlain(c) && !IsSpace(c)
  {
  }

  lemma NumberShape(s: string)
    requires IsNumber(s)
    ensures Quiet(s) && Trimmed(s) && (IsDigit(s[0]) || s[0] == '-')
  {
    NumberChars(s);
    hide Quiet;
    hide IsNumber;
    hide Nested;
    hide DigitSpan;
    hide IsDigit;
    hide IsSpace;
    hide IsPlain;
    forall i | 0 <= i < |s| ensures IsPlain(s[i]) && !IsSpace(s[i]) {
      NumberChar(s[i]);
    }
    PlainQuiet(s);
  }

  lemma StringShape(quote: char, body: string)
    requires WellFormed(EString(quote, body))
    ensures var s := [quote] + body + [quote]; Quiet(s) && Trimmed(s)
  {
    var s := [quote] + body + [quote];
    PlainQuiet([quote]);
    NestedConcat(Round, [quote], body);
    NestedConcat(Round, [quote] + body, [quote]);
    NestedConcat(Square, [quote], body);
    NestedConcat(Square, [quote] + body, [quote]);
    forall i | 0 <= i < |s| - 1 && (s[i] == '=' || s[i] == '!') && s[i + 1] == '='
      ensures BothDepth(s[..i]) != 0
    {
      assert s[i] == body[i - 1] && s[i + 1] == body[i];
      assert s[..i] == [quote] + body[..i - 1];
      BothDepthConcat([quote], body[..i - 1]);
    }
  }

  /** A path is trimmed, starts with an identifier and goes on with whole steps. */
  lemma {:induction false} PathShape(e: Expr)
    requires IsPath(e)
    ensures Quiet(Print(e)) && Trimmed(Print(e)) && IsIdentStart(Print(e)[0])
    decreases e, 0
  {
    hide Quiet;
    hide Solid;
    match e
    case EName(name) =>
      StepShape(name);
      assert IsIdentStart(name[0]);
    case EDot(base, step) =>
      PathShape(base);
      StepShape(step);
      PlainQuiet(".");
      QuietConcat(Print(base), ".");
      QuietConcat(Print(base) + ".", step);
      assert Print(base) != "" && Print(e)[0] == Print(base)[0];
    case EIndex(base, key) =>
      var k := [Open(Square)] + Print(key) + [Close(Square)];
      PathShape(base);
      TextShape(key);
      QuietBracketed(Square, Print(key));
      assert Print(e) == Print(base) + k;
      QuietConcat(Print(base), k);
      assert Print(base) != "" && Print(e)[0] == Print(base)[0];
  }

  /** The text of a tree is solid whether trimmed or not. */
  lemma {:induction false} TextShape(e: Expr)
    requires WellFormed(e)
    ensures Solid(Print(e))
    decreases e, 3
  {
    CoreShape(e);
    var a, b := TrimSplit(Print(e));
    PadSolid(a, Trim(Print(e)), b);
  }

  /** The trimmed text of a tree has the shape that its scanners rely on. */
  lemma {:induction false} CoreShape(e: Expr)
    requires WellFormed(e)
    ensures var t := Trim(Print(e)); Trimmed(t) && Solid(t) && (Unary(e) ==> Quiet(t))
    decreases e, 2
  {
    var s := Print(e);
    match e
    case ENot(arg) =>
      CoreShape(arg);
      var t, y := NotText(Print(arg));
    case EEqual(op, left, right) =>
      CoreShape(left);
      CoreShape(right);
      SolidEndsOperator(Print(right));
      var l, t, r := EqualityText(op, Print(left), Print(right));
    case EPad(before, core, after) =>
      CoreShape(core);
      TrimPadded(before, Print(core), after);
    case EParen(inner) =>
      TextShape(inner);
      QuietBracketed(Round, Print(inner));
      assert s == [Open(Round)] + Print(inner) + [Close(Round)];
      TrimmedIsCore(s);
    case _ =>
      UnitShape(e);
  }

  /** Trees whose text begins and ends with a character of their own. */
  predicate IsUnit(e: Expr) {
    !e.ENot? && !e.EEqual? && !e.EPad? && !e.EParen?
  }

  lemma {:induction false} UnitShape(e: Expr)
    requires WellFormed(e) && IsUnit(e)
    ensures var t := Print(e); Trim(t) == t && Trimmed(t) && Quiet(t)
    decreases e, 1
  {
    hide Quiet;
    var s := Print(e);
    match e {
      case ENumber(text) => NumberShape(text);
      case EString(quote, body) => StringShape(quote, body);
      case EName(_) => PathShape(e);
      case EDot(_, _) => PathShape(e);
      case EIndex(_, _) => PathShape(e);
      case _ => PlainQuiet(s);
    }
    TrimmedIsCore(s);
  }

  lemma TrimmedIsCore(s: string)
    requires Trimmed(s)
    ensures Trim(s) == s
  {
    TrimUnique("", s, "");
    assert "" + s + "" == s;
  }

  /** A negation's trimmed text is `!` and then its argument without trailing space. */
  lemma NotText(arg: string) returns (t: string, y: string)
    requires Quiet(Trim(arg))
    ensures "!" + t == Trim("!" + arg) && Trimmed("!" + t) && Quiet("!" + t)
    ensures Trim(t) == Trim(arg)
  {
    hide Nested;
    hide NoTopEquality;
    hide Trim;
    var x, y' := TrimSplit(arg);
    var core := Trim(arg);
    y := y';
    t := x + core;
    PadQuiet(x, core, "");
    assert t == x + core + "";
    TrimUnique(x, core, "");
    QuietNegated(t);
    assert "!" + arg == "" + ("!" + t) + y;
    TrimUnique("", "!" + t, y);
  }

  lemma QuietNegated(t: string)
    requires Quiet(t)
    ensures Quiet("!" + t)
  {
    NestedWithout(Round, "!");
    NestedWithout(Square, "!");
    NestedConcat(Round, "!", t);
    NestedConcat(Square, "!", t);
    NoTopEqualityConcat("!", t);
  }

  /** What may stand right of an operator without making it longer. */
  predicate EndsOperator(s: string) { s == "" || s[0] != '=' }

  /** White space or a solid text does not make an operator longer. */
  lemma SolidEndsOperator(s: string)
    requires Solid(Trim(s))
    ensures s != "" && EndsOperator(s)
  {
    hide Nested;
    hide Trim;
    var a, b := TrimSplit(s);
    assert s[0] == if a == "" then Trim(s)[0] else a[0];
  }

  /** The parts of an equality's trimmed text: the left operand with its trailing
      white space, the operator, the right operand with its leading one. */
  lemma EqualityText(op: EqualityOp, left: string, right: string)
      returns (l: string, t: string, r: string)
    requires Quiet(Trim(left)) && EndsOperator(right)
    ensures t == Trim(left + OpText(op) + right) == l + OpText(op) + r
    ensures Trimmed(t)
    ensures Quiet(l) && !IsSpace(l[0]) && Trim(l) == Trim(left)
    ensures EndsOperator(r) && Trim(r) == Trim(right)
    ensures Solid(Trim(right)) ==> Solid(t)
  {
    hide Nested, NoTopEquality, Trim, AllSpace;
    var a, b;
    a, l := LeftOperand(left);
    r, b := RightOperand(right);
    t := l + OpText(op) + r;
    BetweenTrimmed(op, l, r);
    hide OpText, EndsOperator, Quiet, IsSpace, Trimmed;
    TrimUnique(a, t, b);
    assert left + OpText(op) + right == a + t + b by { Regrouped(a, l, OpText(op), r, b); }
    if Solid(Trim(right)) {
      OperatorBetween(op, l, r);
    }
  }

  lemma Regrouped(a: string, l: string, op: string, r: string, b: string)
    ensures (a + l) + op + (r + b) == a + (l + op + r) + b
  {
  }

  lemma BetweenTrimmed(op: EqualityOp, l: string, r: string)
    requires l != "" && !IsSpace(l[0]) && (r != "" ==> !IsSpace(r[|r| - 1]))
    ensures Trimmed(l + OpText(op) + r)
  {
    var t := l + OpText(op) + r;
    assert t[0] == l[0] && t[|t| - 1] == if r == "" then '=' else r[|r| - 1];
  }

  /** The left operand without the white space in front of it. */
  lemma LeftOperand(left: string) returns (a: string, l: string)
    requires Quiet(Trim(left))
    ensures left == a + l && AllSpace(a)
    ensures Quiet(l) && !IsSpace(l[0]) && Trim(l) == Trim(left)
  {
    hide Nested, NoTopEquality, Trim;
    var b;
    a, b := TrimSplit(left);
    var x := Trim(left);
    l := x + b;
    PadQuiet("", x, b);
    assert l == "" + x + b;
    TrimUnique("", x, b);
  }

  /** The right operand without the white space at its end. */
  lemma RightOperand(right: string) returns (r: string, b: string)
    requires EndsOperator(right)
    ensures right == r + b && AllSpace(b) && (r != "" ==> !IsSpace(r[|r| - 1]))
    ensures EndsOperator(r) && Trim(r) == Trim(right)
    ensures Solid(Trim(right)) ==> Solid(r)
  {
    hide Nested;
    hide Trim;
    var a, b' := TrimSplit(right);
    var y := Trim(right);
    if y == "" {
      r, b := "", right;
      assert right == a + b';
      TrimUnique("", "", "");
      assert "" + "" + "" == "";
    } else {
      r, b := a + y, b';
      assert r == a + y + "" && right[0] == r[0];
      TrimUnique(a, y, "");
      if Solid(y) { PadSolid(a, y, ""); }
    }
  }

  lemma OperatorBetween(op: EqualityOp, l: string, r: string)
    requires Solid(l) && Solid(r)
    ensures Solid(l + OpText(op) + r)
  {
    NestedWithout(Round, OpText(op));
    NestedWithout(Square, OpText(op));
    NestedConcat(Round, l, OpText(op));
    NestedConcat(Square, l, OpText(op));
    NestedConcat(Round, l + OpText(op), r);
    NestedConcat(Square, l + OpText(op), r);
  }
}

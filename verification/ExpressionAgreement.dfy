/** The evaluator gives every well-formed text the value of the tree it spells. */
module ExpressionAgreement {
  import opened Text
  import opened JsValues
  import opened Expressions
  import opened ExpressionSyntax

  // ------------------------------------------------------------ the scanners on tree texts

  lemma QuietHasNoEquality(t: string)
    requires NoTopEquality(t)
    ensures TopLevelEquality(t) == NotFound
  {
  }

  /** After a quiet left operand the operator is the first equality the scanner meets, and
      it is read in full, whatever follows. */
  lemma OperatorFound(op: EqualityOp, l: string, r: string)
    requires Quiet(l) && EndsOperator(r) && Trim(l) != ""
    ensures TopLevelEquality(l + OpText(op) + r) == Found(|l|, op)
  {
    var t := l + OpText(op) + r;
    assert t[..|l|] == l;
    assert BothDepth(l) == 0;
    assert t[|l|] == OpText(op)[0] && t[|l| + 1] == OpText(op)[1];
    assert |OpText(op)| == 3 ==> t[|l| + 2] == '=';
    assert |OpText(op)| == 2 && r != "" ==> t[|l| + 2] == r[0];
    assert EqualityAt(t, |l|);
    forall j: nat | j < |l| ensures !EqualityAt(t, j) {
      assert t[..j] == l[..j];
    }
    assert FirstEquality(t, 0) == |l|;
  }

  /** A text that opens a parenthesis and is balanced comes back to depth zero. */
  lemma {:induction false} ReturnsToZero(s: string, k: nat) returns (i: nat)
    requires k <= |s| && Depth(Round, s[..k]) > 0 && Depth(Round, s) == 0
    ensures k <= i < |s| && s[i] == ')' && Depth(Round, s[..i + 1]) == 0
    decreases |s| - k
  {
    assert s[..|s|] == s;
    assert k < |s|;
    assert s[..k + 1][..k] == s[..k];
    if Depth(Round, s[..k + 1]) == 0 {
      i := k;
    } else {
      i := ReturnsToZero(s, k + 1);
    }
  }

  /** The parentheses around two operands are never taken for one pair. */
  lemma OperandsNotWrapped(l: string, rest: string)
    requires Solid(l) && rest != ""
    ensures l[0] == '(' ==> !ParensWrapWhole(l + rest)
  {
    if l[0] == '(' {
      assert l[..1][..0] == "";
      assert Depth(Round, l[..1]) == 1;
      var i := ReturnsToZero(l, 1);
      assert (l + rest)[..i + 1] == l[..i + 1];
      assert (l + rest)[i] == ')';
    }
  }

  lemma PairWraps(s: string)
    requires Solid(s)
    ensures ParensWrapWhole("(" + s + ")")
  {
    var t := "(" + s + ")";
    forall i | 0 <= i < |t| - 1 && t[i] == ')' ensures Depth(Round, t[..i + 1]) != 0 {
      assert t == [Open(Round)] + s + [Close(Round)];
      DepthInside(Round, Round, s, i);
    }
  }

  lemma {:induction false} IdentSpanStops(name: string, tail: string)
    requires forall i :: 0 <= i < |name| ==> IsIdentPart(name[i])
    requires tail == "" || !IsIdentPart(tail[0])
    ensures IdentSpan(name + tail) == |name|
  {
    if name == "" {
      assert name + tail == tail;
    } else {
      assert (name + tail)[1..] == name[1..] + tail;
      IdentSpanStops(name[1..], tail);
    }
  }

  lemma {:induction false} DigitSpanStops(digits: string, tail: string)
    requires forall i :: 0 <= i < |digits| ==> IsDigit(digits[i])
    requires tail == "" || !IsDigit(tail[0])
    ensures DigitSpan(digits + tail) == |digits|
  {
    if digits == "" {
      assert digits + tail == tail;
    } else {
      assert (digits + tail)[1..] == digits[1..] + tail;
      DigitSpanStops(digits[1..], tail);
    }
  }

  lemma StepStops(step: string, tail: string)
    requires IsStep(step) && (tail == "" || !IsIdentPart(tail[0]))
    ensures StepLength(step + tail) == |step|
    ensures IsIdent(step) ==> IdentLength(step + tail) == |step|
  {
    assert (step + tail)[0] == step[0];
    if IdentLength(step) > 0 {
      IdentSpanStops(step, tail);
    } else {
      DigitSpanStops(step, tail);
    }
  }

  /** A balanced key text ends at the bracket that closes it. */
  lemma KeyEnds(before: string, key: string, tail: string)
    requires Nested(Square, key)
    ensures var t, i := before + "[" + key + "]" + tail, |before| + 1;
            ClosingSquare(t, i, i) == i + |key| < |t| && t[i..i + |key|] == key
  {
    var t, i := before + "[" + key + "]" + tail, |before| + 1;
    assert t[i..i + |key|] == key;
    forall m | i <= m < i + |key| && t[m] == ']' ensures Depth(Square, t[i..m]) != 0 {
      var j := m - i;
      assert t[i..m] == key[..j];
      assert key[..j + 1][..j] == key[..j];
      assert Depth(Square, key[..j + 1]) >= 0;
    }
  }

  // ------------------------------------------------------------ agreement

  lemma NameAgrees(w: World, vals: Scope, name: string, tail: string)
    requires IsIdent(name) && (tail == "" || !IsIdentPart(tail[0]))
    ensures var t := name + tail;
            ResolvePath(w, vals, t) == PathFrom(w, vals, t, |name|, Lookup(w, vals, name))
  {
    hide PathFrom;
    StepStops(name, tail);
    assert (name + tail)[..|name|] == name;
  }

  lemma DotAgrees(w: World, vals: Scope, before: string, step: string, tail: string, cur: JsValue)
    requires IsStep(step) && (tail == "" || !IsIdentPart(tail[0]))
    ensures var t := before + "." + step + tail;
            PathFrom(w, vals, t, |before|, cur) ==
            PathFrom(w, vals, t, |before| + 1 + |step|, Member(w, cur, Str(step)))
  {
    hide PathFrom, Resolve, ClosingSquare, Member;
    var t, i := before + "." + step + tail, |before|;
    PathStep(w, vals, t, i, cur);
    assert t[i] == '.';
    assert step != "";
    StepStops(step, tail);
    hide IsStep, StepLength, IsIdentPart;
    assert t[i + 1..] == step + tail;
    assert t[i + 1..i + 1 + |step|] == step;
  }

  lemma IndexAgrees(w: World, vals: Scope, before: string, key: string, tail: string, cur: JsValue)
    requires Nested(Square, key)
    ensures var t := before + "[" + key + "]" + tail;
            PathFrom(w, vals, t, |before|, cur) ==
            PathFrom(w, vals, t, |before| + |key| + 2, Member(w, cur, Resolve(w, vals, key)))
  {
    hide PathFrom, Resolve, Nested, Member, StepLength;
    PathStep(w, vals, before + "[" + key + "]" + tail, |before|, cur);
    KeyEnds(before, key, tail);
  }

  /** Reading a path up to any point where a further step may follow leaves the
      evaluator with what the part read so far denotes. */
  lemma {:induction false} PathAgrees(w: World, vals: Scope, p: Expr, tail: string)
    requires IsPath(p) && (tail == "" || tail[0] == '.' || tail[0] == '[')
    ensures var t := Print(p) + tail;
            ResolvePath(w, vals, t) == PathFrom(w, vals, t, |Print(p)|, Denote(w, vals, p))
    decreases p, 0
  {
    hide Resolve, ResolvePath, PathFrom, Nested, NoTopEquality, IsNumber, IdentLength, StepLength;
    match p
    case EName(name) =>
      NameAgrees(w, vals, name, tail);
    case EDot(base, step) =>
      var rest := "." + step + tail;
      PathAgrees(w, vals, base, rest);
      StepRegrouped(Print(base), ".", step, "", tail);
      DotAgrees(w, vals, Print(base), step, tail, Denote(w, vals, base));
    case EIndex(base, key) =>
      var rest := "[" + Print(key) + "]" + tail;
      PathAgrees(w, vals, base, rest);
      StepRegrouped(Print(base), "[", Print(key), "]", tail);
      TextShape(key);
      hide Print;
      IndexAgrees(w, vals, Print(base), Print(key), tail, Denote(w, vals, base));
      Agrees(w, vals, key);
  }

  lemma StepRegrouped(base: string, open: string, step: string, close: string, tail: string)
    ensures base + (open + step + close + tail) == base + open + step + close + tail
    ensures base + (open + step + tail) == base + open + step + tail
  {
  }

  /** A unit is neither a parenthesised text nor an equality. */
  lemma UnitDispatch(w: World, vals: Scope, e: Expr)
    requires WellFormed(e) && IsUnit(e)
    ensures Print(e) != "" && Resolve(w, vals, Print(e)) == ResolveUnary(w, vals, Print(e))
  {
    UnitShape(e);
    UnitStart(e);
    QuietHasNoEquality(Print(e));
    hide ResolveUnary;
  }

  /** The first character of a unit tells its kind. */
  lemma UnitStart(e: Expr)
    requires WellFormed(e) && IsUnit(e)
    ensures Print(e) != "" && Print(e)[0] != '(' && Print(e)[0] != '!'
    ensures IsPath(e) ==> IsIdentStart(Print(e)[0])
    ensures e.ENumber? ==> !IsIdentStart(Print(e)[0])
  {
    match e
    case ENumber(text) => NumberShape(text);
    case EName(_) => PathShape(e);
    case EDot(_, _) => PathShape(e);
    case EIndex(_, _) => PathShape(e);
    case _ =>
  }

  /** A path is not mistaken for a keyword. */
  lemma PathIsNoKeyword(e: Expr)
    requires WellFormed(e) && IsPath(e)
    ensures !IsKeyword(Print(e))
  {
    match e
    case EName(_) =>
    case EDot(base, step) => NoKeywordWith('.', Print(base), step);
    case EIndex(base, key) => NoKeywordWith('[', Print(base), Print(key) + "]");
  }

  /** No keyword has a dot or a bracket in it. */
  lemma NoKeywordWith(c: char, before: string, after: string)
    requires c == '.' || c == '['
    ensures !IsKeyword(before + [c] + after)
  {
    assert (before + [c] + after)[|before|] == c;
  }

  lemma NumberStart(s: string)
    requires s != "" && IsIdentStart(s[0])
    ensures !IsNumber(s)
  {
  }

  lemma LiteralAgrees(w: World, vals: Scope, e: Expr)
    requires WellFormed(e) && IsUnit(e) && !IsPath(e)
    ensures ResolveUnary(w, vals, Print(e)) == Denote(w, vals, e)
  {
    UnitStart(e);
    hide Resolve;
    hide ResolvePath;
    hide Nested;
    hide NoTopEquality;
    match e
    case EString(quote, body) => QuotedUnary(w, vals, quote, body);
    case ENumber(text) => assert !IsKeyword(text);
    case _ =>
  }

  lemma PathDispatch(w: World, vals: Scope, t: string)
    requires t != "" && IsIdentStart(t[0]) && !IsKeyword(t)
    ensures ResolveUnary(w, vals, t) == ResolvePath(w, vals, t)
  {
    hide Resolve;
    hide ResolvePath;
    NumberStart(t);
  }

  lemma {:induction false} UnitAgrees(w: World, vals: Scope, e: Expr)
    requires WellFormed(e) && IsUnit(e)
    ensures Resolve(w, vals, Print(e)) == Denote(w, vals, e)
    decreases e, 1
  {
    hide Resolve;
    hide ResolveUnary;
    hide ResolvePath;
    UnitDispatch(w, vals, e);
    var t := Print(e);
    if IsPath(e) {
      UnitStart(e);
      PathIsNoKeyword(e);
      PathDispatch(w, vals, t);
      PathAgrees(w, vals, e, "");
      assert t + "" == t;
      PathStep(w, vals, t, |t|, Denote(w, vals, e));
    } else {
      LiteralAgrees(w, vals, e);
    }
  }

  /** Main result: in every world and scope, the value the evaluator computes for the
      text of a tree is what the tree denotes. */
  lemma {:induction false} Agrees(w: World, vals: Scope, e: Expr)
    requires WellFormed(e)
    ensures Resolve(w, vals, Print(e)) == Denote(w, vals, e)
    decreases e, 2
  {
    match e
    case EPad(before, core, after) =>
      Agrees(w, vals, core);
      TrimPadded(before, Print(core), after);
    case EParen(inner) =>
      Agrees(w, vals, inner);
      ParenAgrees(w, vals, inner);
    case ENot(arg) =>
      Agrees(w, vals, arg);
      NotAgrees(w, vals, arg);
    case EEqual(op, left, right) =>
      Agrees(w, vals, left);
      Agrees(w, vals, right);
      EqualAgrees(w, vals, op, left, right);
    case _ =>
      UnitAgrees(w, vals, e);
  }

  lemma ParenAgrees(w: World, vals: Scope, inner: Expr)
    requires WellFormed(inner)
    ensures Resolve(w, vals, "(" + Print(inner) + ")") == Resolve(w, vals, Print(inner))
  {
    var t := "(" + Print(inner) + ")";
    TextShape(inner);
    TrimmedIsCore(t);
    PairWraps(Print(inner));
    assert t[1..|t| - 1] == Print(inner);
  }

  lemma {:induction false} OnlyTrimmedMatters(w: World, vals: Scope, a: string, b: string)
    requires Trim(a) == Trim(b)
    ensures Resolve(w, vals, a) == Resolve(w, vals, b)
  {
  }

  lemma NotAgrees(w: World, vals: Scope, arg: Expr)
    requires WellFormed(arg) && Unary(arg)
    ensures Resolve(w, vals, "!" + Print(arg)) == Bool(!Truthy(Resolve(w, vals, Print(arg))))
  {
    CoreShape(arg);
    var t, y := NotText(Print(arg));
    OnlyTrimmedMatters(w, vals, t, Print(arg));
    QuietHasNoEquality("!" + t);
    assert ("!" + t)[1..] == t;
    assert ResolveTrimmed(w, vals, "!" + t) == ResolveUnary(w, vals, "!" + t);
  }

  lemma EqualAgrees(w: World, vals: Scope, op: EqualityOp, left: Expr, right: Expr)
    requires WellFormed(EEqual(op, left, right))
    ensures Resolve(w, vals, Print(EEqual(op, left, right))) ==
            Compare(w, op, Resolve(w, vals, Print(left)), Resolve(w, vals, Print(right)))
  {
    CoreShape(left);
    CoreShape(right);
    SolidEndsOperator(Print(right));
    EqualityReads(w, vals, op, Print(left), Print(right));
  }

  /** An equality is cut at its own operator when the left text has none outside brackets,
      whatever the right one is. */
  lemma EqualityReads(w: World, vals: Scope, op: EqualityOp, left: string, right: string)
    requires Quiet(Trim(left)) && EndsOperator(right)
    ensures Resolve(w, vals, left + OpText(op) + right) ==
            Compare(w, op, Resolve(w, vals, left), Resolve(w, vals, right))
  {
    assert Trim(left) != "";
    hide Quiet, Solid, Resolve, ResolveTrimmed;
    var l, t, r := EqualityText(op, left, right);
    ResolveIsTrimmed(w, vals, left + OpText(op) + right);
    OnlyTrimmedMatters(w, vals, l, left);
    OnlyTrimmedMatters(w, vals, r, right);
    EqualityDispatch(w, vals, op, l, r);
  }

  lemma EqualityDispatch(w: World, vals: Scope, op: EqualityOp, l: string, r: string)
    requires Quiet(l) && !IsSpace(l[0]) && Trim(l) != "" && EndsOperator(r)
    ensures ResolveTrimmed(w, vals, l + OpText(op) + r) ==
            Compare(w, op, Resolve(w, vals, l), Resolve(w, vals, r))
  {
    hide Resolve;
    hide Nested;
    hide NoTopEquality;
    hide Depth;
    var t := l + OpText(op) + r;
    assert t == l + (OpText(op) + r);
    OperandsNotWrapped(l, OpText(op) + r);
    OperatorFound(op, l, r);
    assert t[..|l|] == l && t[|l| + |OpText(op)|..] == r;
  }

  // ------------------------------------------------------------ where the reading is unusual

  /** A quoted text denotes its body exactly when the scanner sees no equality in it;
      otherwise it is taken apart there, quotes or not. */
  lemma QuotedTextIff(w: World, vals: Scope, quote: char, body: string)
    requires quote == '"' || quote == '\''
    ensures var t := [quote] + body + [quote];
            Resolve(w, vals, t) == Str(body) <==> TopLevelEquality(t) == NotFound
  {
    hide Resolve;
    hide ResolveUnary;
    hide IsNumber;
    var t := [quote] + body + [quote];
    TrimmedIsCore(t);
    ResolveIsTrimmed(w, vals, t);
    assert t[0] == quote;
    QuotedUnary(w, vals, quote, body);
  }

  lemma QuotedUnary(w: World, vals: Scope, quote: char, body: string)
    requires quote == '"' || quote == '\''
    ensures ResolveUnary(w, vals, [quote] + body + [quote]) == Str(body)
  {
    hide Resolve;
    hide ResolvePath;
    var t := [quote] + body + [quote];
    assert t[1..|t| - 1] == body;
    assert t[0] == quote && !IsNumber(t) && !IsKeyword(t);
  }

  lemma ResolveIsTrimmed(w: World, vals: Scope, t: string)
    ensures Resolve(w, vals, t) == ResolveTrimmed(w, vals, Trim(t))
  {
  }

  lemma DigitLiteral(c: char)
    requires IsDigit(c)
    ensures WellFormed(ENumber([c])) && NumberValue([c]) == (c as int - '0' as int) as real
  {
    var s := [c];
    assert s[1..] == "" && DigitSpan("") == 0 && DigitSpan(s) == 1;
    assert s[..0] == "" && DigitsValue("") == 0.0;
  }

  // ------------------------------------------------------------ chains of equalities

  /** A chain of two equalities groups to the right, whatever its operators and its last
      operand. */
  lemma ChainGroupsRight(w: World, vals: Scope, op1: EqualityOp, op2: EqualityOp, a: string, b: string, c: string)
    requires Quiet(Trim(a)) && Quiet(Trim(b)) && EndsOperator(c)
    ensures Resolve(w, vals, a + OpText(op1) + (b + OpText(op2) + c)) ==
            Compare(w, op1, Resolve(w, vals, a), Compare(w, op2, Resolve(w, vals, b), Resolve(w, vals, c)))
  {
    hide Resolve, OpText;
    SolidEndsOperator(b);
    EqualityReads(w, vals, op2, b, c);
    EqualityReads(w, vals, op1, a, b + OpText(op2) + c);
  }

  predicate IsStrict(op: EqualityOp) { op.Strict? || op.StrictNot? }

  /** The other grouping, which is JavaScript's. */
  function LeftGrouped(w: World, op1: EqualityOp, op2: EqualityOp, a: JsValue, b: JsValue, c: JsValue): JsValue {
    Compare(w, op2, Compare(w, op1, a, b), c)
  }

  /** When the two groupings of strict operators come to the same, by the operands' values:
      between two truth values it takes a third one or equal ends; at one truth value the
      other comparison decides; without any the operators must be alike. */
  predicate GroupingsMeet(op1: EqualityOp, op2: EqualityOp, a: JsValue, b: JsValue, c: JsValue) {
    Meet(a, b, c, StrictlyEqual(a, b), StrictlyEqual(b, c), op1.Strict?, op2.Strict?)
  }

  /** `ab` and `bc` say whether the neighbours are equal, `s1` and `s2` whether the operators
      ask for equality. */
  predicate Meet(a: JsValue, b: JsValue, c: JsValue, ab: bool, bc: bool, s1: bool, s2: bool) {
    match (a, c)
    case (Bool(p), Bool(q)) => b.Bool? || p == q
    case (Bool(p), _) => p == (bc != s1)
    case (_, Bool(q)) => q == (ab != s2)
    case _ => s1 == s2
  }

  /** A strict operator compares for equality, and then perhaps negates. */
  lemma StrictCompare(w: World, op: EqualityOp, x: JsValue, y: JsValue)
    requires IsStrict(op)
    ensures Compare(w, op, x, y) == Bool(StrictlyEqual(x, y) == op.Strict?)
  {
  }

  lemma EqualToBool(x: JsValue, y: JsValue)
    requires x.Bool? || y.Bool?
    ensures StrictlyEqual(x, y) <==> x == y
  {
  }

  /** The two groupings, where the inner comparisons came to `bc` and `ab`. */
  lemma GroupedBits(a: JsValue, b: JsValue, c: JsValue, ab: bool, bc: bool, s1: bool, s2: bool)
    requires (a.Bool? ==> (ab <==> a == b)) && (c.Bool? ==> (bc <==> b == c))
    ensures ((a == Bool(bc == s2)) == s1) == ((c == Bool(ab == s1)) == s2) <==> Meet(a, b, c, ab, bc, s1, s2)
  {
    if a.Bool? {
      if c.Bool? {
        if b.Bool? {
          assert ab == (a.b == b.b) && bc == (b.b == c.b);
        }
      }
    }
  }

  lemma RightIs(w: World, op1: EqualityOp, op2: EqualityOp, a: JsValue, b: JsValue, c: JsValue)
    requires IsStrict(op1) && IsStrict(op2)
    ensures Compare(w, op1, a, Compare(w, op2, b, c))
         == Bool((a == Bool(StrictlyEqual(b, c) == op2.Strict?)) == op1.Strict?)
  {
    hide Compare, StrictlyEqual;
    StrictCompare(w, op2, b, c);
    var m := Bool(StrictlyEqual(b, c) == op2.Strict?);
    StrictCompare(w, op1, a, m);
    EqualToBool(a, m);
  }

  lemma LeftIs(w: World, op1: EqualityOp, op2: EqualityOp, a: JsValue, b: JsValue, c: JsValue)
    requires IsStrict(op1) && IsStrict(op2)
    ensures LeftGrouped(w, op1, op2, a, b, c)
         == Bool((c == Bool(StrictlyEqual(a, b) == op1.Strict?)) == op2.Strict?)
  {
    hide Compare, StrictlyEqual;
    StrictCompare(w, op1, a, b);
    var n := Bool(StrictlyEqual(a, b) == op1.Strict?);
    StrictCompare(w, op2, n, c);
    EqualToBool(n, c);
  }

  lemma GroupingsIff(w: World, op1: EqualityOp, op2: EqualityOp, a: JsValue, b: JsValue, c: JsValue)
    requires IsStrict(op1) && IsStrict(op2)
    ensures Compare(w, op1, a, Compare(w, op2, b, c)) == LeftGrouped(w, op1, op2, a, b, c)
       <==> GroupingsMeet(op1, op2, a, b, c)
  {
    hide Compare, StrictlyEqual, LeftGrouped, Meet;
    RightIs(w, op1, op2, a, b, c);
    LeftIs(w, op1, op2, a, b, c);
    if a.Bool? { EqualToBool(a, b); }
    if c.Bool? { EqualToBool(b, c); }
    GroupedBits(a, b, c, StrictlyEqual(a, b), StrictlyEqual(b, c), op1.Strict?, op2.Strict?);
  }

  /** The exact condition: a chain of strict operators has the value JavaScript gives it if
      and only if the groupings of its operands' values meet. */
  lemma ChainAsJavaScriptIff(w: World, vals: Scope, op1: EqualityOp, op2: EqualityOp, a: string, b: string, c: string)
    requires Quiet(Trim(a)) && Quiet(Trim(b)) && EndsOperator(c) && IsStrict(op1) && IsStrict(op2)
    ensures var x, y, z := Resolve(w, vals, a), Resolve(w, vals, b), Resolve(w, vals, c);
            (Resolve(w, vals, a + OpText(op1) + (b + OpText(op2) + c)) == LeftGrouped(w, op1, op2, x, y, z)
             <==> GroupingsMeet(op1, op2, x, y, z))
  {
    hide Resolve, OpText, Compare, GroupingsMeet, LeftGrouped, Quiet, Solid;
    ChainGroupsRight(w, vals, op1, op2, a, b, c);
    GroupingsIff(w, op1, op2, Resolve(w, vals, a), Resolve(w, vals, b), Resolve(w, vals, c));
  }

  /** A chain whose two readings differ: `1===2===false`. */
  lemma EqualityChainsGroupRight(w: World, vals: Scope)
    ensures Resolve(w, vals, "1===2===false") == Bool(false)
    ensures Resolve(w, vals, "(1===2)===false") == Bool(true)
  {
    ChainTrees(w, vals);
    OneIsNotTwo(w, vals);
    hide Resolve, Print, Denote, WellFormed;
    Agrees(w, vals, ChainTree());
    Agrees(w, vals, GroupedTree());
  }

  function OneTwo(): Expr { EEqual(Strict, ENumber("1"), ENumber("2")) }

  function ChainTree(): Expr { EEqual(Strict, ENumber("1"), EEqual(Strict, ENumber("2"), EFalse)) }

  function GroupedTree(): Expr { EEqual(Strict, EParen(OneTwo()), EFalse) }

  lemma OneIsNotTwo(w: World, vals: Scope)
    ensures Denote(w, vals, ChainTree()) == Bool(false) && Denote(w, vals, GroupedTree()) == Bool(true)
  {
    hide IsNumber, NumberValue;
    DigitLiteral('1');
    DigitLiteral('2');
    assert Denote(w, vals, OneTwo()) == Bool(false);
    var right := ChainTree().right;
    assert Denote(w, vals, right) == Bool(false);
  }

  lemma ChainTrees(w: World, vals: Scope)
    ensures WellFormed(ChainTree()) && Print(ChainTree()) == "1===2===false"
    ensures WellFormed(GroupedTree()) && Print(GroupedTree()) == "(1===2)===false"
  {
    hide IsNumber, NumberValue;
    DigitLiteral('1');
    DigitLiteral('2');
    assert Print(ChainTree()) == "1" + "===" + ("2" + "===" + "false");
    assert Print(OneTwo()) == "1" + "===" + "2";
    assert Print(GroupedTree()) == "(" + ("1" + "===" + "2") + ")" + "===" + "false";
  }
}

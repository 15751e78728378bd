/** What the expression language means, in literal characters and values. */
module ExpressionLaws {
  import opened Text
  import opened JsValues
  import opened Expressions
  import opened ExpressionSyntax
  import opened ExpressionAgreement

  // ------------------------------------------------------------ numbers

  function Ten(k: nat): nat { if k == 0 then 1 else 10 * Ten(k - 1) }

  /** The last `k` decimal digits of `n`, zeros in front included. */
  function Digits(n: nat, k: nat): (s: string)
    ensures |s| == k && forall i :: 0 <= i < k ==> '0' <= s[i] <= '9'
  {
    if k == 0 then "" else Digits(n / 10, k - 1) + [(48 + n % 10) as char]
  }

  lemma TenIsPower(k: nat)
    ensures Pow10(k) == Ten(k) as real
  {
  }

  lemma {:induction false} DigitsMean(n: nat, k: nat)
    requires n < Ten(k)
    ensures DigitsValue(Digits(n, k)) == n as real
  {
    if k > 0 {
      DigitsMean(n / 10, k - 1);
      var s := Digits(n, k);
      assert s[..k - 1] == Digits(n / 10, k - 1);
      assert s[k - 1] as int - 48 == n % 10;
    }
  }

  lemma {:induction false} SpanOfDigits(s: string, tail: string)
    requires (forall i :: 0 <= i < |s| ==> '0' <= s[i] <= '9') && (tail == "" || !('0' <= tail[0] <= '9'))
    ensures DigitSpan(s + tail) == |s|
  {
    if s == "" {
      assert s + tail == tail;
    } else {
      assert (s + tail)[1..] == s[1..] + tail;
      SpanOfDigits(s[1..], tail);
    }
  }

  function Signed(negative: bool): string { if negative then "-" else "" }

  /** A whole number in `j` digits. */
  function Whole(negative: bool, n: nat, j: nat): string { Signed(negative) + Digits(n, j) }

  /** A decimal fraction: `j` digits, a dot, and `k` digits. */
  function Fraction(negative: bool, n: nat, j: nat, m: nat, k: nat): string {
    Signed(negative) + (Digits(n, j) + ("." + Digits(m, k)))
  }

  /** A minus in front makes the number negative. */
  lemma SignedNumber(negative: bool, body: string)
    requires IsNumber(body) && body[0] != '-'
    ensures var s := Signed(negative) + body;
            IsNumber(s) && NumberValue(s) == if negative then -NumberValue(body) else NumberValue(body)
  {
    var s := Signed(negative) + body;
    assert negative ==> s[0] == '-' && s[1..] == body;
    assert !negative ==> s == body;
    hide DigitsValue, DigitSpan, Pow10;
  }

  lemma WholeValue(n: nat, j: nat)
    requires 0 < j && n < Ten(j)
    ensures var s := Digits(n, j); IsNumber(s) && s[0] != '-' && NumberValue(s) == n as real
  {
    var s := Digits(n, j);
    SpanOfDigits(s, "");
    assert s + "" == s;
    DigitsMean(n, j);
    hide DigitsValue, DigitSpan, Digits;
  }

  /** Digits, a dot and digits are a number of two parts. */
  lemma TwoParts(front: string, back: string)
    requires front != "" && forall i :: 0 <= i < |front| ==> '0' <= front[i] <= '9'
    requires back != "" && forall i :: 0 <= i < |back| ==> '0' <= back[i] <= '9'
    ensures var s := front + ("." + back);
            IsNumber(s) && s[0] != '-' && NumberValue(s) == DigitsValue(front) + DigitsValue(back) / Pow10(|back|)
  {
    hide DigitsValue, Pow10;
    var s, n := front + ("." + back), |front|;
    SpanOfDigits(front, "." + back);
    SpanOfDigits(back, "");
    assert back + "" == back;
    hide DigitSpan;
    assert s[0] == front[0];
    assert s[..n] == front && s[n] == '.' && s[n + 1..] == back;
  }

  lemma FractionValue(n: nat, j: nat, m: nat, k: nat)
    requires 0 < j && n < Ten(j) && 0 < k && m < Ten(k)
    ensures var s := Digits(n, j) + ("." + Digits(m, k));
            IsNumber(s) && s[0] != '-' && NumberValue(s) == n as real + m as real / Ten(k) as real
  {
    hide DigitsValue, Pow10, Ten, Digits, IsNumber, NumberValue;
    TwoParts(Digits(n, j), Digits(m, k));
    DigitsMean(n, j);
    DigitsMean(m, k);
    TenIsPower(k);
  }

  lemma NumberResolves(w: World, vals: Scope, s: string)
    requires IsNumber(s)
    ensures Resolve(w, vals, s) == Num(NumberValue(s))
  {
    Agrees(w, vals, ENumber(s));
    hide Resolve, IsNumber, NumberValue;
  }

  lemma SignedMeans(w: World, vals: Scope, body: string)
    requires IsNumber(body) && body[0] != '-'
    ensures Resolve(w, vals, body) == Num(NumberValue(body))
    ensures Resolve(w, vals, "-" + body) == Num(-NumberValue(body))
  {
    SignedNumber(true, body);
    hide Resolve, IsNumber, NumberValue;
    NumberResolves(w, vals, body);
    NumberResolves(w, vals, "-" + body);
  }

  /** Main result: the decimal digits of a number, zeros in front of it or not, mean the
      number, and with a minus its negative. */
  lemma WholeNumbersMean(w: World, vals: Scope, n: nat, j: nat)
    requires 0 < j && n < Ten(j)
    ensures Resolve(w, vals, Digits(n, j)) == Num(n as real)
    ensures Resolve(w, vals, "-" + Digits(n, j)) == Num(-(n as real))
  {
    hide *;
    WholeValue(n, j);
    SignedMeans(w, vals, Digits(n, j));
  }

  /** Main result: with a dot and `k` more digits, so many parts of ten to the `k` are added. */
  lemma FractionsMean(w: World, vals: Scope, n: nat, j: nat, m: nat, k: nat)
    requires 0 < j && n < Ten(j) && 0 < k && m < Ten(k)
    ensures var value := n as real + m as real / Ten(k) as real;
            && Resolve(w, vals, Digits(n, j) + "." + Digits(m, k)) == Num(value)
            && Resolve(w, vals, "-" + Digits(n, j) + "." + Digits(m, k)) == Num(-value)
  {
    hide *;
    FractionValue(n, j, m, k);
    var front, back := Digits(n, j), Digits(m, k);
    SignedMeans(w, vals, front + ("." + back));
    Joined(front, back);
  }

  lemma Joined(front: string, back: string)
    ensures front + ("." + back) == front + "." + back
    ensures "-" + (front + ("." + back)) == "-" + front + "." + back
  {
  }

  lemma {:induction false} DigitsAre(s: string) returns (n: nat)
    requires forall i :: 0 <= i < |s| ==> '0' <= s[i] <= '9'
    ensures n < Ten(|s|) && s == Digits(n, |s|)
  {
    if s == "" {
      n := 0;
    } else {
      var front := s[..|s| - 1];
      var m := DigitsAre(front);
      var d := s[|s| - 1] as int - 48;
      n := 10 * m + d;
      OneMoreDigit(m, d, |s|);
      hide Digits, Ten;
      assert s == front + [s[|s| - 1]];
    }
  }

  lemma OneMoreDigit(m: nat, d: nat, k: nat)
    requires 0 < k && m < Ten(k - 1) && d < 10
    ensures 10 * m + d < Ten(k) && Digits(10 * m + d, k) == Digits(m, k - 1) + [(48 + d) as char]
  {
    assert (10 * m + d) / 10 == m && (10 * m + d) % 10 == d;
  }

  /** These are all the texts that are read as numbers. */
  lemma NumberTexts(s: string) returns (negative: bool, n: nat, j: nat, m: nat, k: nat)
    requires IsNumber(s)
    ensures 0 < j && n < Ten(j) && m < Ten(k)
    ensures s == if k == 0 then Whole(negative, n, j) else Fraction(negative, n, j, m, k)
  {
    negative := s[0] == '-';
    var body := if negative then s[1..] else s;
    assert s == Signed(negative) + body;
    n, j, m, k := BodyTexts(body);
    hide Digits, Ten, IsNumber;
  }

  lemma BodyTexts(body: string) returns (n: nat, j: nat, m: nat, k: nat)
    requires var d := DigitSpan(body);
             d > 0 && (d == |body| || (body[d] == '.' && d + 1 < |body| && DigitSpan(body[d + 1..]) == |body| - d - 1))
    ensures 0 < j && n < Ten(j) && m < Ten(k)
    ensures body == if k == 0 then Digits(n, j) else Digits(n, j) + ("." + Digits(m, k))
  {
    j := DigitSpan(body);
    var front := body[..j];
    n := DigitsAre(front);
    if j == |body| {
      m, k := 0, 0;
      assert front == body;
    } else {
      var back := body[j + 1..];
      k := |back|;
      m := DigitsAre(back);
      hide DigitSpan, Digits, Ten;
      assert body == front + ("." + back);
    }
  }

  // ------------------------------------------------------------ names, steps and keys

  /** A name, in literal characters. */
  predicate Named(s: string) {
    s != "" && !('0' <= s[0] <= '9') && forall i :: 0 <= i < |s| ==>
      'a' <= s[i] <= 'z' || 'A' <= s[i] <= 'Z' || '0' <= s[i] <= '9' || s[i] == '_' || s[i] == '$'
  }

  predicate Reserved(s: string) { s == "true" || s == "false" || s == "null" || s == "undefined" }

  lemma {:induction false} SpanOfName(s: string, i: nat)
    requires i <= |s| && forall k :: i <= k < |s| ==> IsIdentPart(s[k])
    ensures IdentSpan(s[i..]) == |s| - i
    decreases |s| - i
  {
    if i < |s| {
      assert s[i..][1..] == s[i + 1..];
      SpanOfName(s, i + 1);
    }
  }

  lemma NamedIsName(s: string)
    requires Named(s)
    ensures IsIdent(s)
  {
    SpanOfName(s, 0);
    assert s[0..] == s;
  }

  lemma StepIsStep(s: string)
    requires Named(s) || (s != "" && forall i :: 0 <= i < |s| ==> '0' <= s[i] <= '9')
    ensures IsStep(s)
  {
    if Named(s) {
      NamedIsName(s);
    } else {
      SpanOfDigits(s, "");
      assert s + "" == s;
    }
  }

  /** Main result: a name reads its binding, or what the scope object inherits; without a scope
      there is nothing. */
  lemma NameReads(w: World, bindings: map<string, JsValue>, name: string)
    requires Named(name) && !Reserved(name)
    ensures Resolve(w, NoScope, name) == Undefined
    ensures Resolve(w, Scope(bindings), name) == if name in bindings then bindings[name] else w.inherited(name)
  {
    NamedIsName(name);
    hide Resolve;
    Agrees(w, NoScope, EName(name));
    Agrees(w, Scope(bindings), EName(name));
  }

  /** Main result: a step after a name reads a property, of nothing and of null nothing; names
      and digits are steps. */
  lemma StepReads(w: World, vals: Scope, name: string, step: string)
    requires Named(name) && !Reserved(name)
    requires Named(step) || (step != "" && forall i :: 0 <= i < |step| ==> '0' <= step[i] <= '9')
    ensures var v := Resolve(w, vals, name);
            Resolve(w, vals, name + "." + step) ==
            if v == Undefined || v == Null then Undefined else w.get(v, Str(step))
  {
    NamedIsName(name);
    StepIsStep(step);
    hide Resolve;
    Agrees(w, vals, EName(name));
    Agrees(w, vals, EDot(EName(name), step));
  }

  /** A key in brackets is an expression itself. */
  lemma KeyReads(w: World, vals: Scope, name: string, key: Expr)
    requires Named(name) && !Reserved(name) && WellFormed(key)
    ensures var v := Resolve(w, vals, name);
            Resolve(w, vals, name + "[" + Print(key) + "]") ==
            if v == Undefined || v == Null then Undefined else w.get(v, Resolve(w, vals, Print(key)))
  {
    NamedIsName(name);
    hide Resolve;
    Agrees(w, vals, EName(name));
    Agrees(w, vals, key);
    Agrees(w, vals, EIndex(EName(name), key));
  }

  // ------------------------------------------------------------ operators

  /** The four operators, by their texts: `===` and `!==` ask for strict equality or not, `==`
      and `!=` for the loose one. */
  lemma OperatorsMean(w: World, vals: Scope, left: string, right: string)
    requires Quiet(Trim(left)) && EndsOperator(right)
    ensures var a, b := Resolve(w, vals, left), Resolve(w, vals, right);
            && Resolve(w, vals, left + "===" + right) == Bool(StrictlyEqual(a, b))
            && Resolve(w, vals, left + "!==" + right) == Bool(!StrictlyEqual(a, b))
            && Resolve(w, vals, left + "==" + right) == Bool(w.loose(a, b))
            && Resolve(w, vals, left + "!=" + right) == Bool(!w.loose(a, b))
  {
    hide Resolve, Quiet, StrictlyEqual;
    EqualityReads(w, vals, Strict, left, right);
    EqualityReads(w, vals, StrictNot, left, right);
    EqualityReads(w, vals, Loose, left, right);
    EqualityReads(w, vals, LooseNot, left, right);
  }

  /** Strict equality: of one kind and alike, numbers that are none excepted, and arrays by
      identity. */
  lemma StrictEqualityIs(a: JsValue, b: JsValue)
    ensures StrictlyEqual(a, b) <==>
            || (a == Undefined && b == Undefined) || (a == Null && b == Null)
            || (a.Bool? && b.Bool? && (a.b <==> b.b)) || (a.Num? && b.Num? && a.n == b.n)
            || (a.Infinite? && b.Infinite? && (a.negative <==> b.negative)) || (a.Str? && b.Str? && a.s == b.s)
            || (a.Arr? && b.Arr? && a.arrayId == b.arrayId) || (a.Obj? && b.Obj? && a.objectId == b.objectId)
  {
  }

  /** A negation is true of exactly these values. */
  lemma NegationIs(w: World, vals: Scope, name: string)
    requires Named(name) && !Reserved(name)
    ensures var v := Resolve(w, vals, name);
            Resolve(w, vals, "!" + name) ==
            Bool(v == Undefined || v == Null || v == Bool(false) || v == Num(0.0) || v == NaN || v == Str(""))
  {
    NamedIsName(name);
    Agrees(w, vals, EName(name));
    NotAgrees(w, vals, EName(name));
    TruthIs(Resolve(w, vals, name));
    hide Resolve, Truthy, Lookup;
  }

  lemma TruthIs(v: JsValue)
    ensures !Truthy(v) <==>
            v == Undefined || v == Null || v == Bool(false) || v == Num(0.0) || v == NaN || v == Str("")
  {
  }

  /** An operator with nothing in front of it is none, and neither is the rest of it. */
  lemma LeadingOperator(rest: string)
    requires forall i :: 0 <= i < |rest| ==> rest[i] != '='
    ensures TopLevelEquality("===" + rest) == NotFound && TopLevelEquality("!==" + rest) == NotFound
    ensures TopLevelEquality("==" + rest) == NotFound && TopLevelEquality("!=" + rest) == NotFound
  {
    NothingAfter("===" + rest, 3);
    NothingAfter("!==" + rest, 3);
    NothingAfter("==" + rest, 2);
    NothingAfter("!=" + rest, 2);
  }

  lemma NothingAfter(t: string, n: nat)
    requires 2 <= n <= 3 && n <= |t| && (t[0] == '=' || t[0] == '!')
    requires (forall i :: 1 <= i < n ==> t[i] == '=') && forall i :: n <= i < |t| ==> t[i] != '='
    ensures TopLevelEquality(t) == NotFound
  {
    assert t[..0] == "" && Trim("") == "";
    forall i: nat | i < |t| ensures !EqualityAt(t, i) {
    }
  }

  /** The white space of `trim`, by code points. */
  lemma WhiteSpaceIs(c: char)
    ensures IsSpace(c) <==>
            c as int in {9, 10, 11, 12, 13, 32, 160, 5760, 8192, 8193, 8194, 8195, 8196, 8197, 8198, 8199, 8200, 8201,
                         8202, 8232, 8233, 8239, 8287, 12288, 65279}
  {
  }
}

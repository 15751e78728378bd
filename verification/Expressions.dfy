/** The expression language of the template runtime: one pass parses and evaluates,
    directly on the text. */
module Expressions {
  import opened Text
  import opened JsValues

  // ---------------------------------------------------------------- lexemes

  predicate IsDigit(c: char) { '0' <= c <= '9' }

  predicate IsIdentStart(c: char) {
    'A' <= c <= 'Z' || 'a' <= c <= 'z' || c == '_' || c == '$'
  }

  predicate IsIdentPart(c: char) { IsIdentStart(c) || IsDigit(c) }

  /** Length of the longest prefix of identifier characters. */
  function IdentSpan(s: string): (n: nat)
    ensures n <= |s|
    ensures forall i :: 0 <= i < n ==> IsIdentPart(s[i])
    ensures n < |s| ==> !IsIdentPart(s[n])
  {
    if s != "" && IsIdentPart(s[0]) then 1 + IdentSpan(s[1..]) else 0
  }

  /** Length of the identifier that starts `s`, 0 when none does. */
  function IdentLength(s: string): (n: nat)
    ensures n <= |s|
  {
    if s != "" && IsIdentStart(s[0]) then IdentSpan(s) else 0
  }

  /** Length of the longest prefix of decimal digits. */
  function DigitSpan(s: string): (n: nat)
    ensures n <= |s|
    ensures forall i :: 0 <= i < n ==> IsDigit(s[i])
    ensures n < |s| ==> !IsDigit(s[n])
  {
    if s != "" && IsDigit(s[0]) then 1 + DigitSpan(s[1..]) else 0
  }

  /** What may follow a dot: an identifier, or else a run of digits. */
  function StepLength(s: string): (n: nat)
    ensures n <= |s|
  {
    if IdentLength(s) > 0 then IdentLength(s) else DigitSpan(s)
  }

  /** An optional minus, digits, and optionally a dot with more digits. */
  predicate IsNumber(s: string) {
    var body := if s != "" && s[0] == '-' then s[1..] else s;
    var n := DigitSpan(body);
    n > 0 && (n == |body| ||
              (body[n] == '.' && n + 1 < |body| && DigitSpan(body[n + 1..]) == |body| - n - 1))
  }

  function Pow10(k: nat): (r: real)
    ensures r >= 1.0
  {
    if k == 0 then 1.0 else 10.0 * Pow10(k - 1)
  }

  function DigitsValue(s: string): real {
    if s == "" then 0.0
    else DigitsValue(s[..|s| - 1]) * 10.0 + (s[|s| - 1] as int - '0' as int) as real
  }

  function NumberValue(s: string): real {
    var negative := s != "" && s[0] == '-';
    var body := if negative then s[1..] else s;
    var n := DigitSpan(body);
    var magnitude := if n == |body| then DigitsValue(body)
                     else DigitsValue(body[..n]) + DigitsValue(body[n + 1..]) / Pow10(|body| - n - 1);
    if negative then -magnitude else magnitude
  }

  // ---------------------------------------------------------------- scanners

  /** The first character opens a parenthesis that no closing one before the last
      character brings back to depth zero. */
  predicate ParensWrapWhole(expr: string) {
    forall i :: 0 <= i < |expr| - 1 && expr[i] == ')' ==> Depth(Round, expr[..i + 1]) != 0
  }

  method ScanParensWrapWhole(expr: string) returns (whole: bool)
    ensures whole == ParensWrapWhole(expr)
  {
    var depth := 0;
    var i := 0;
    while i < |expr| - 1
      invariant i <= |expr|
      invariant depth == Depth(Round, expr[..i])
      invariant forall j :: 0 <= j < i && expr[j] == ')' ==> Depth(Round, expr[..j + 1]) != 0
    {
      assert expr[..i + 1][..i] == expr[..i];
      if expr[i] == '(' {
        depth := depth + 1;
      } else if expr[i] == ')' {
        depth := depth - 1;
        if depth == 0 {
          return false;
        }
      }
      i := i + 1;
    }
    return true;
  }

  datatype EqualityOp = Loose | LooseNot | Strict | StrictNot

  function OpText(op: EqualityOp): (s: string)
    ensures 2 <= |s| <= 3
  {
    match op
    case Loose => "=="
    case LooseNot => "!="
    case Strict => "==="
    case StrictNot => "!=="
  }

  /** Round and square brackets together. */
  function BothDepth(s: string): int { Depth(Round, s) + Depth(Square, s) }

  /** An equality operator starts at `i`: outside all brackets, not the continuation
      of another one, and with something to its left. */
  predicate EqualityAt(expr: string, i: nat)
  {
    && i + 1 < |expr|
    && (expr[i] == '=' || expr[i] == '!')
    && expr[i + 1] == '='
    && BothDepth(expr[..i]) == 0
    && (i > 0 ==> expr[i - 1] != '=' && expr[i - 1] != '!')
    && Trim(expr[..i]) != ""
  }

  function OpAt(expr: string, i: nat): (op: EqualityOp)
    requires EqualityAt(expr, i)
    ensures i + |OpText(op)| <= |expr| && expr[i..i + |OpText(op)|] == OpText(op)
  {
    if i + 2 < |expr| && expr[i + 2] == '='
    then if expr[i] == '=' then Strict else StrictNot
    else if expr[i] == '=' then Loose else LooseNot
  }

  /** The first position at or after `i` where an equality operator starts;
      the length of the text when there is none. */
  function FirstEquality(expr: string, i: nat): (k: nat)
    requires i <= |expr|
    ensures i <= k <= |expr|
    ensures k < |expr| ==> EqualityAt(expr, k)
    ensures forall j :: i <= j < k ==> !EqualityAt(expr, j)
    decreases |expr| - i
  {
    if i == |expr| || EqualityAt(expr, i) then i else FirstEquality(expr, i + 1)
  }

  /** Where the operator stands and which one it is. */
  datatype Found = NotFound | Found(index: nat, op: EqualityOp)

  function TopLevelEquality(expr: string): Found {
    var k := FirstEquality(expr, 0);
    if k < |expr| then Found(k, OpAt(expr, k)) else NotFound
  }

  method ScanTopLevelEquality(expr: string) returns (r: Found)
    ensures r == TopLevelEquality(expr)
  {
    var depth := 0;
    var i := 0;
    while i < |expr|
      invariant i <= |expr|
      invariant depth == BothDepth(expr[..i])
      invariant FirstEquality(expr, 0) == FirstEquality(expr, i)
    {
      assert expr[..i + 1][..i] == expr[..i];
      var c := expr[i];
      if c == '[' || c == '(' {
        depth := depth + 1;
      } else if c == ']' || c == ')' {
        depth := depth - 1;
      } else if depth == 0 && (c == '=' || c == '!') && i + 1 < |expr| && expr[i + 1] == '=' {
        if i > 0 && (expr[i - 1] == '=' || expr[i - 1] == '!') {
        } else if Trim(expr[..i]) == "" {
        } else {
          var strict := i + 2 < |expr| && expr[i + 2] == '=';
          return Found(i, if c == '=' then (if strict then Strict else Loose)
                          else if strict then StrictNot else LooseNot);
        }
      }
      i := i + 1;
    }
    return NotFound;
  }

  /** The square bracket that closes the one standing just before `from`: the first
      closing one with as many opened as closed in between; the length of the text
      when there is none. */
  function ClosingSquare(expr: string, from: nat, j: nat): (k: nat)
    requires from <= j <= |expr|
    ensures j <= k <= |expr|
    ensures k < |expr| ==> expr[k] == ']' && Depth(Square, expr[from..k]) == 0
    ensures forall i :: j <= i < k && expr[i] == ']' ==> Depth(Square, expr[from..i]) != 0
    decreases |expr| - j
  {
    if j == |expr| || (expr[j] == ']' && Depth(Square, expr[from..j]) == 0) then j
    else ClosingSquare(expr, from, j + 1)
  }

  method ScanClosingSquare(expr: string, from: nat) returns (j: nat)
    requires from <= |expr|
    ensures j == ClosingSquare(expr, from, from)
  {
    var depth := 1;
    j := from;
    while j < |expr| && depth > 0
      invariant from <= j <= |expr|
      invariant depth == 1 + Depth(Square, expr[from..j]) && depth > 0
      invariant ClosingSquare(expr, from, from) == ClosingSquare(expr, from, j)
      decreases |expr| - j
    {
      SliceGrows(expr, from, j);
      if expr[j] == '[' {
        depth := depth + 1;
      } else if expr[j] == ']' {
        depth := depth - 1;
        if depth == 0 {
          break;
        }
      }
      j := j + 1;
    }
  }

  // ---------------------------------------------------------------- evaluation

  function Compare(w: World, op: EqualityOp, a: JsValue, b: JsValue): JsValue {
    match op
    case Strict => Bool(StrictlyEqual(a, b))
    case StrictNot => Bool(!StrictlyEqual(a, b))
    case Loose => Bool(w.loose(a, b))
    case LooseNot => Bool(!w.loose(a, b))
  }

  /** The value of an expression text; every text has one. */
  function Resolve(w: World, vals: Scope, src: string): JsValue
    decreases |src|, 4
  {
    ResolveTrimmed(w, vals, Trim(src))
  }

  function ResolveTrimmed(w: World, vals: Scope, expr: string): JsValue
    decreases |expr|, 3
  {
    if expr == "" then Undefined
    else if |expr| >= 2 && expr[0] == '(' && expr[|expr| - 1] == ')' && ParensWrapWhole(expr)
    then Resolve(w, vals, expr[1..|expr| - 1])
    else
      match TopLevelEquality(expr)
      case Found(k, op) =>
        Compare(w, op, Resolve(w, vals, expr[..k]), Resolve(w, vals, expr[k + |OpText(op)|..]))
      case NotFound => ResolveUnary(w, vals, expr)
  }

  function ResolveUnary(w: World, vals: Scope, expr: string): JsValue
    requires expr != ""
    decreases |expr|, 2
  {
    if expr[0] == '!' then Bool(!Truthy(Resolve(w, vals, expr[1..])))
    else if expr == "true" then Bool(true)
    else if expr == "false" then Bool(false)
    else if expr == "null" then Null
    else if expr == "undefined" then Undefined
    else if IsNumber(expr) then Num(NumberValue(expr))
    else if |expr| >= 2 && (expr[0] == '"' || expr[0] == '\'') && expr[|expr| - 1] == expr[0]
    then Str(expr[1..|expr| - 1])
    else ResolvePath(w, vals, expr)
  }

  function ResolvePath(w: World, vals: Scope, expr: string): JsValue
    decreases |expr|, 1
  {
    var n := IdentLength(expr);
    if n == 0 then Undefined
    else PathFrom(w, vals, expr, n, Lookup(w, vals, expr[..n]))
  }

  /** Follows the steps of a path from position `i` on, `cur` being what the part
      before it denotes. */
  function PathFrom(w: World, vals: Scope, expr: string, i: nat, cur: JsValue): JsValue
    requires i <= |expr|
    decreases |expr|, 0, |expr| - i
  {
    if i == |expr| then cur
    else if expr[i] == '.' then
      var n := StepLength(expr[i + 1..]);
      if n == 0 then Undefined
      else PathFrom(w, vals, expr, i + 1 + n, Member(w, cur, Str(expr[i + 1..i + 1 + n])))
    else if expr[i] == '[' then
      var j := ClosingSquare(expr, i + 1, i + 1);
      if j == |expr| then Undefined
      else PathFrom(w, vals, expr, j + 1, Member(w, cur, Resolve(w, vals, expr[i + 1..j])))
    else Undefined
  }

  /** One turn of the path evaluator. */
  lemma PathStep(w: World, vals: Scope, expr: string, i: nat, cur: JsValue)
    requires i <= |expr|
    ensures PathFrom(w, vals, expr, i, cur) ==
            if i == |expr| then cur
            else if expr[i] == '.' then
              var n := StepLength(expr[i + 1..]);
              if n == 0 then Undefined
              else PathFrom(w, vals, expr, i + 1 + n, Member(w, cur, Str(expr[i + 1..i + 1 + n])))
            else if expr[i] == '[' then
              var j := ClosingSquare(expr, i + 1, i + 1);
              if j == |expr| then Undefined
              else PathFrom(w, vals, expr, j + 1, Member(w, cur, Resolve(w, vals, expr[i + 1..j])))
            else Undefined
  {
  }

  /** The start of a path. */
  lemma PathStart(w: World, vals: Scope, expr: string)
    ensures var n := IdentLength(expr);
            ResolvePath(w, vals, expr) ==
            if n == 0 then Undefined else PathFrom(w, vals, expr, n, Lookup(w, vals, expr[..n]))
  {
    hide PathFrom;
  }

  /** The loop of the path evaluator. */
  method WalkPath(w: World, vals: Scope, expr: string) returns (v: JsValue)
    ensures v == ResolvePath(w, vals, expr)
  {
    hide ResolvePath, PathFrom, Resolve, Lookup, Member, IdentLength, StepLength, ClosingSquare;
    PathStart(w, vals, expr);
    var n := IdentLength(expr);
    if n == 0 {
      return Undefined;
    }
    var cur := Lookup(w, vals, expr[..n]);
    var i := n;
    while i < |expr|
      invariant i <= |expr|
      invariant PathFrom(w, vals, expr, i, cur) == ResolvePath(w, vals, expr)
    {
      PathStep(w, vals, expr, i, cur);
      if expr[i] == '.' {
        var m := StepLength(expr[i + 1..]);
        if m == 0 {
          return Undefined;
        }
        cur := Member(w, cur, Str(expr[i + 1..i + 1 + m]));
        i := i + 1 + m;
      } else if expr[i] == '[' {
        var j := ScanClosingSquare(expr, i + 1);
        if j == |expr| {
          return Undefined;
        }
        cur := Member(w, cur, Resolve(w, vals, expr[i + 1..j]));
        i := j + 1;
      } else {
        return Undefined;
      }
    }
    PathStep(w, vals, expr, i, cur);
    return cur;
  }
}

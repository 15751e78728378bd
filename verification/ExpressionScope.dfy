/** Which names of the scope an expression text can read. */
module ExpressionScope {
  import opened Text
  import opened JsValues
  import opened Expressions

  /** The identifiers that head a path somewhere in the text, as the evaluator cuts
      the text up. */
  function FreeNames(src: string): set<string>
    decreases |src|, 4
  {
    FreeInTrimmed(Trim(src))
  }

  function FreeInTrimmed(expr: string): set<string>
    decreases |expr|, 3
  {
    if expr == "" then {}
    else if |expr| >= 2 && expr[0] == '(' && expr[|expr| - 1] == ')' && ParensWrapWhole(expr)
    then FreeNames(expr[1..|expr| - 1])
    else
      match TopLevelEquality(expr)
      case Found(k, op) => FreeNames(expr[..k]) + FreeNames(expr[k + |OpText(op)|..])
      case NotFound => FreeInUnary(expr)
  }

  function FreeInUnary(expr: string): set<string>
    requires expr != ""
    decreases |expr|, 2
  {
    if expr[0] == '!' then FreeNames(expr[1..])
    else if IsLiteral(expr) then {}
    else FreeInPath(expr)
  }

  predicate IsLiteral(expr: string) {
    || expr == "true" || expr == "false" || expr == "null" || expr == "undefined"
    || IsNumber(expr)
    || (|expr| >= 2 && (expr[0] == '"' || expr[0] == '\'') && expr[|expr| - 1] == expr[0])
  }

  function FreeInPath(expr: string): set<string>
    decreases |expr|, 1
  {
    var n := IdentLength(expr);
    if n == 0 then {} else {expr[..n]} + FreeInSteps(expr, n)
  }

  function FreeInSteps(expr: string, i: nat): set<string>
    requires i <= |expr|
    decreases |expr|, 0, |expr| - i
  {
    if i == |expr| then {}
    else if expr[i] == '.' then
      var n := StepLength(expr[i + 1..]);
      if n == 0 then {} else FreeInSteps(expr, i + 1 + n)
    else if expr[i] == '[' then
      var j := ClosingSquare(expr, i + 1, i + 1);
      if j == |expr| then {} else FreeNames(expr[i + 1..j]) + FreeInSteps(expr, j + 1)
    else {}
  }

  /** The scopes answer alike for every name of `names`. */
  ghost predicate AgreeOn(w: World, a: Scope, b: Scope, names: set<string>) {
    forall n :: n in names ==> Lookup(w, a, n) == Lookup(w, b, n)
  }

  /** The value of a text depends on the scope only through its free names. */
  lemma {:induction false} Coincidence(w: World, a: Scope, b: Scope, src: string)
    requires AgreeOn(w, a, b, FreeNames(src))
    ensures Resolve(w, a, src) == Resolve(w, b, src)
    decreases |src|, 4
  {
    CoincidenceTrimmed(w, a, b, Trim(src));
  }

  lemma {:induction false} CoincidenceTrimmed(w: World, a: Scope, b: Scope, expr: string)
    requires AgreeOn(w, a, b, FreeInTrimmed(expr))
    ensures ResolveTrimmed(w, a, expr) == ResolveTrimmed(w, b, expr)
    decreases |expr|, 3
  {
    hide Resolve;
    hide ResolveUnary;
    hide FreeNames;
    hide FreeInUnary;
    if expr == "" {
    } else if |expr| >= 2 && expr[0] == '(' && expr[|expr| - 1] == ')' && ParensWrapWhole(expr) {
      Coincidence(w, a, b, expr[1..|expr| - 1]);
    } else {
      match TopLevelEquality(expr)
      case Found(k, op) =>
        Coincidence(w, a, b, expr[..k]);
        Coincidence(w, a, b, expr[k + |OpText(op)|..]);
      case NotFound =>
        CoincidenceUnary(w, a, b, expr);
    }
  }

  lemma {:induction false} CoincidenceUnary(w: World, a: Scope, b: Scope, expr: string)
    requires expr != "" && AgreeOn(w, a, b, FreeInUnary(expr))
    ensures ResolveUnary(w, a, expr) == ResolveUnary(w, b, expr)
    decreases |expr|, 2
  {
    hide Resolve;
    hide ResolvePath;
    hide FreeNames;
    hide FreeInPath;
    hide IsNumber;
    if expr[0] == '!' {
      Coincidence(w, a, b, expr[1..]);
    } else if !IsLiteral(expr) {
      CoincidencePath(w, a, b, expr);
    }
  }

  lemma {:induction false} CoincidencePath(w: World, a: Scope, b: Scope, expr: string)
    requires AgreeOn(w, a, b, FreeInPath(expr))
    ensures ResolvePath(w, a, expr) == ResolvePath(w, b, expr)
    decreases |expr|, 1
  {
    hide PathFrom;
    hide FreeInSteps;
    var n := IdentLength(expr);
    if n > 0 {
      assert expr[..n] in FreeInPath(expr);
      CoincidenceSteps(w, a, b, expr, n, Lookup(w, a, expr[..n]));
    }
  }

  lemma FreeStep(expr: string, i: nat)
    requires i < |expr|
    ensures FreeInSteps(expr, i) ==
            if expr[i] == '.' then
              var n := StepLength(expr[i + 1..]);
              if n == 0 then {} else FreeInSteps(expr, i + 1 + n)
            else if expr[i] == '[' then
              var j := ClosingSquare(expr, i + 1, i + 1);
              if j == |expr| then {} else FreeNames(expr[i + 1..j]) + FreeInSteps(expr, j + 1)
            else {}
  {
  }

  lemma {:induction false} CoincidenceSteps(w: World, a: Scope, b: Scope, expr: string, i: nat, cur: JsValue)
    requires i <= |expr| && AgreeOn(w, a, b, FreeInSteps(expr, i))
    ensures PathFrom(w, a, expr, i, cur) == PathFrom(w, b, expr, i, cur)
    decreases |expr|, 0, |expr| - i
  {
    hide PathFrom;
    hide Resolve;
    hide FreeNames;
    hide FreeInSteps;
    PathStep(w, a, expr, i, cur);
    PathStep(w, b, expr, i, cur);
    if i < |expr| {
      FreeStep(expr, i);
      if expr[i] == '.' {
        var n := StepLength(expr[i + 1..]);
        if n > 0 {
          CoincidenceSteps(w, a, b, expr, i + 1 + n, Member(w, cur, Str(expr[i + 1..i + 1 + n])));
        }
      } else if expr[i] == '[' {
        var j := ClosingSquare(expr, i + 1, i + 1);
        if j < |expr| {
          Coincidence(w, a, b, expr[i + 1..j]);
          CoincidenceSteps(w, a, b, expr, j + 1, Member(w, cur, Resolve(w, a, expr[i + 1..j])));
        }
      }
    }
  }
}

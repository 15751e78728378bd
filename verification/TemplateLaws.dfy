/** What a render gives for each kind of node, said of the output alone. */
module TemplateLaws {
  import opened Options
  import opened Text
  import opened JsValues
  import opened Expressions
  import opened Holes
  import opened TemplateCompiler
  import opened TemplateMeaning

  /** The render of a single node. */
  function RenderOne(w: World, node: Node, b: Bindings, ctx: Context): seq<Out> {
    Render(w, Cons(node, Nil), b, ctx)
  }

  lemma OneNode(w: World, node: Node, b: Bindings, ctx: Context)
    ensures Compile(w, node).Some? ==> RenderOne(w, node, b, ctx) == [Compile(w, node).value(b, ctx, 0)]
    ensures Compile(w, node).None? ==> RenderOne(w, node, b, ctx) == []
  {
    assert CompileAll(w, Nil) == [];
    hide Compile;
  }

  // ------------------------------------------------------------ loops and branches

  /** The bindings of one turn: as outside but for the item and the index, and the index wins
      where the item has its name. */
  ghost predicate InTurn(inner: Bindings, outer: Bindings, asName: string, item: JsValue, i: nat) {
    && (forall n :: n in inner <==> n in outer || n == asName || n == "$index")
    && (forall n :: n in inner ==>
          inner[n] == if n == "$index" then Num(i as real) else if n == asName then item
                      else if n in outer then outer[n] else Undefined)
  }

  lemma InTurnIs(inner: Bindings, outer: Bindings, asName: string, item: JsValue, i: nat)
    requires InTurn(inner, outer, asName, item, i)
    ensures inner == Turn(outer, asName, item, i)
  {
    var t := Turn(outer, asName, item, i);
    assert inner.Keys == t.Keys;
    assert forall n <- inner :: inner[n] == t[n];
  }

  /** Main result: a loop over an array has one turn for each item, in order; over anything else
      none, or while streaming as many of nothing as the hint says. Each turn is the body under
      the bindings of its turn. */
  lemma LoopRenders(w: World, list: string, asName: string, hintCount: int, kids: Nodes, b: Bindings, ctx: Context)
    ensures var v, outs := CompileAttr(w, list)(b), RenderOne(w, For(list, asName, hintCount, kids), b, ctx);
            && |outs| == 1 && outs[0].Group? && outs[0].index == 0
            && |outs[0].outs| ==
               (if v.Arr? then |v.items| else if ctx.streaming && hintCount > 0 then hintCount else 0)
            && forall i: nat, inner: Bindings ::
                 i < |outs[0].outs| && InTurn(inner, b, asName, if v.Arr? then v.items[i] else Undefined, i) ==>
                   outs[0].outs[i] == Group(i, Render(w, kids, inner, ctx))
  {
    OneNode(w, For(list, asName, hintCount, kids), b, ctx);
    hide CompileAttr, CompileAll, RunAll, InTurn, Turn;
    var v, outs := CompileAttr(w, list)(b), RenderOne(w, For(list, asName, hintCount, kids), b, ctx);
    forall i: nat, inner: Bindings |
        i < |outs[0].outs| && InTurn(inner, b, asName, if v.Arr? then v.items[i] else Undefined, i)
      ensures outs[0].outs[i] == Group(i, Render(w, kids, inner, ctx))
    {
      InTurnIs(inner, b, asName, if v.Arr? then v.items[i] else Undefined, i);
    }
  }

  /** The values that count as false. */
  predicate Falsy(v: JsValue) {
    v == Undefined || v == Null || v == Bool(false) || v == Num(0.0) || v == NaN || v == Str("")
  }

  /** Main result: a branch shows its body unless its value is false; while streaming a hint
      stands in for a value that is not there. */
  lemma BranchRenders(w: World, test: string, hint: Hint, kids: Nodes, b: Bindings, ctx: Context)
    ensures var v := CompileAttr(w, test)(b);
            var shown := if v == Undefined && ctx.streaming && hint.Hint? then CompileAttr(w, hint.raw)(b) else v;
            RenderOne(w, If(test, hint, kids), b, ctx) ==
            [if Falsy(shown) then Nothing else Group(0, Render(w, kids, b, ctx))]
  {
    OneNode(w, If(test, hint, kids), b, ctx);
    var v := CompileAttr(w, test)(b);
    var shown := if v == Undefined && ctx.streaming && hint.Hint? then CompileAttr(w, hint.raw)(b) else v;
    FalsyIff(shown);
    hide CompileAttr, CompileAll, RunAll, Truthy, Falsy;
    assert CompileHint(w, hint).Some? <==> hint.Hint?;
    assert Compile(w, If(test, hint, kids)).value(b, ctx, 0) ==
           if Truthy(shown) then Group(0, RunAll(CompileAll(w, kids), b, ctx)) else Nothing;
  }

  lemma FalsyIff(v: JsValue)
    ensures Falsy(v) <==> !Truthy(v)
  {
  }

  // ------------------------------------------------------------ holes

  /** One hole with text around it. */
  function Around(before: string, source: string, after: string): Mixed { Then(before, source, Last(after)) }

  /** What is shown for the value of a hole in a text: nothing for null and truth values, an
      element or an array as it is, and any other value as its text; for a value that is not
      there its source while streaming or editing, and otherwise nothing. */
  function Showing(w: World, v: JsValue, source: string, ctx: Context): Out {
    match v
    case Undefined =>
      if ctx.streaming then Span("sc-interp sc-missing", Trim(source))
      else if ctx.editing then Span("sc-interp sc-unresolved", "{{ " + Trim(source) + " }}")
      else Nothing
    case Arr(_, _) => Value(v)
    case Str(s) => if w.isElement(v) then Value(v) else Span("sc-interp", s)
    case Null => if w.isElement(v) then Value(v) else Nothing
    case Bool(_) => if w.isElement(v) then Value(v) else Nothing
    case _ => if w.isElement(v) then Value(v) else Span("sc-interp", w.show(v))
  }

  lemma TextHoleShows(w: World, before: string, source: string, after: string, b: Bindings, ctx: Context)
    requires Proper(Around(before, source, after))
    ensures RenderOne(w, Words(Print(Around(before, source, after))), b, ctx) ==
            [Group(0, [Chars(before), Showing(w, Resolve(w, Scope(b), source), source, ctx), Chars(after)])]
  {
    hide Resolve, Proper, ShowHole, Showing, Trim;
    var m, v := Around(before, source, after), Resolve(w, Scope(b), source);
    OneNode(w, Words(Print(m)), b, ctx);
    WordsCompiled(w, m, b, ctx, 0);
    ShowingIs(w, v, source, ctx);
    assert Shown(Prose(m));
    assert ProseMeaning(w, Last(after), b, ctx) == [Chars(after)];
    assert ProseMeaning(w, m, b, ctx) == [Chars(before), ShowHole(w, v, source, ctx)] + [Chars(after)];
    assert ProseMeaning(w, m, b, ctx) == [Chars(before), Showing(w, v, source, ctx), Chars(after)];
    assert Meaning(w, Prose(m), b, ctx, 0) == Group(0, ProseMeaning(w, m, b, ctx));
    hide Compile, CompileWords, Print, ProseMeaning, Meaning;
  }

  lemma ShowingIs(w: World, v: JsValue, source: string, ctx: Context)
    ensures ShowHole(w, v, source, ctx) == Showing(w, v, source, ctx)
  {
  }

  /** A text without two braces in a row is shown as it is, and white space of other kinds than
      the plain space not at all. */
  lemma PlainTextShows(w: World, text: string, b: Bindings, ctx: Context)
    requires forall i :: 0 <= i < |text| - 1 ==> !(text[i] == '{' && text[i + 1] == '{')
    ensures RenderOne(w, Words(text), b, ctx) ==
            if AllSpace(text) && ' ' !in text then [] else [Chars(text)]
  {
    OneNode(w, Words(text), b, ctx);
    assert !HasBraces(text);
    BlankIff(text);
  }

  lemma BlankIff(text: string)
    ensures Trim(text) == "" <==> AllSpace(text)
  {
    var a, z := TrimSplit(text);
    if Trim(text) == "" {
      assert text == a + z;
    } else {
      assert text[|a|] == Trim(text)[0];
    }
  }

  /** A hole among text in an attribute: nothing and null are empty. */
  lemma AttributeHoleMeans(w: World, before: string, source: string, after: string, b: Bindings)
    requires Proper(Around(before, source, after)) && !IsWhole(Print(Around(before, source, after)))
    ensures var v := Resolve(w, Scope(b), source);
            var text := if v == Undefined || v == Null then "" else if v.Str? then v.s else w.show(v);
            CompileAttr(w, Print(Around(before, source, after)))(b) == Str(before + text + after)
  {
    hide Resolve, Proper, IsWhole, CompileAttr;
    AttrCompiled(w, Woven(Around(before, source, after)), b);
    hide Print;
    assert WovenText(w, Last(after), b) == after;
  }

  // ------------------------------------------------------------ elements

  /** The property an attribute's value becomes. */
  function Becoming(name: string, v: JsValue): Prop {
    match v
    case Str(s) => if name == "style" then Style(s) else Plain(v)
    case Undefined =>
      if name == "checked" then Plain(Bool(false)) else if name == "value" then Plain(Str("")) else Plain(v)
    case _ => Plain(v)
  }

  /** Attribute `i` is the last one of its name. */
  predicate LastOfName(attributes: seq<(string, string)>, i: nat, n: nat) {
    i < n <= |attributes| && forall j :: i < j < n ==> attributes[j].0 != attributes[i].0
  }

  lemma {:induction false} LastPropertyIs(w: World, attributes: seq<(string, string)>, b: Bindings, n: nat,
                                          first: map<string, Prop>, i: nat)
    requires n <= |attributes| && LastOfName(attributes, i, n)
    ensures var props := RunProps(CompileAttributes(w, attributes), b, n, first);
            attributes[i].0 in props &&
            props[attributes[i].0] == Becoming(attributes[i].0, CompileAttr(w, attributes[i].1)(b))
  {
    hide CompileAttr, RunProps, Becoming, PropOf;
    RunPropsStep(w, CompileAttributes(w, attributes), b, n - 1, first);
    BecomingIs(attributes[n - 1].0, CompileAttr(w, attributes[n - 1].1)(b));
    if i < n - 1 { LastPropertyIs(w, attributes, b, n - 1, first, i); }
  }

  lemma BecomingIs(name: string, v: JsValue)
    ensures PropOf(name, v) == Becoming(name, v)
  {
  }

  lemma RunPropsStep(w: World, getters: seq<(string, Getter)>, b: Bindings, n: nat, first: map<string, Prop>)
    requires n < |getters|
    ensures RunProps(getters, b, n + 1, first) ==
            RunProps(getters, b, n, first)[getters[n].0 := PropOf(getters[n].0, getters[n].1(b))]
  {
    hide PropOf;
  }

  lemma {:induction false} OtherPropertyIs(w: World, attributes: seq<(string, string)>, b: Bindings, n: nat,
                                           first: map<string, Prop>, k: string)
    requires n <= |attributes| && forall j :: 0 <= j < n ==> attributes[j].0 != k
    ensures var props := RunProps(CompileAttributes(w, attributes), b, n, first);
            (k in props <==> k in first) && (k in first ==> props[k] == first[k])
  {
    hide CompileAttr, RunProps, PropOf;
    if n > 0 {
      RunPropsStep(w, CompileAttributes(w, attributes), b, n - 1, first);
      OtherPropertyIs(w, attributes, b, n - 1, first, k);
    } else {
      NoProps(CompileAttributes(w, attributes), b, first);
    }
  }

  lemma NoProps(getters: seq<(string, Getter)>, b: Bindings, first: map<string, Prop>)
    ensures RunProps(getters, b, 0, first) == first
  {
  }

  /** Main result: an element has its key and stamp, and for each attribute name the property of
      the last attribute of that name; its children are rendered in its bindings. */
  lemma ElementRenders(w: World, name: string, nodeKey: string, templateId: string,
                       attributes: seq<(string, string)>, kids: Nodes, b: Bindings, ctx: Context)
    ensures var outs := RenderOne(w, Tag(name, nodeKey, templateId, [], attributes, kids), b, ctx);
            && |outs| == 1 && outs[0].Element? && outs[0].name == name && outs[0].outs == Render(w, kids, b, ctx)
            && var props := outs[0].props;
            && (forall i: nat :: LastOfName(attributes, i, |attributes|) ==>
                  attributes[i].0 in props &&
                  props[attributes[i].0] == Becoming(attributes[i].0, CompileAttr(w, attributes[i].1)(b)))
            && (forall k :: (forall j :: 0 <= j < |attributes| ==> attributes[j].0 != k) ==>
                  (k in props <==> k == "key" || k == "data-dc-tpl")
                  && (k == "key" ==> props[k] == Plain(Str(w.show(Num(0.0)) + nodeKey)))
                  && (k == "data-dc-tpl" ==> props[k] == Plain(Str(templateId))))
  {
    OneNode(w, Tag(name, nodeKey, templateId, [], attributes, kids), b, ctx);
    assert |CompileAttributes(w, attributes)| == |attributes|;
    hide CompileAttr, CompileAll, RunAll, RunProps, CompileAttributes, Becoming;
    var first := FirstProps(w, 0, nodeKey, templateId);
    forall i: nat | LastOfName(attributes, i, |attributes|)
      ensures attributes[i].0 in RunProps(CompileAttributes(w, attributes), b, |attributes|, first)
      ensures RunProps(CompileAttributes(w, attributes), b, |attributes|, first)[attributes[i].0] ==
              Becoming(attributes[i].0, CompileAttr(w, attributes[i].1)(b))
    {
      LastPropertyIs(w, attributes, b, |attributes|, first, i);
    }
    forall k | forall j :: 0 <= j < |attributes| ==> attributes[j].0 != k
      ensures var props := RunProps(CompileAttributes(w, attributes), b, |attributes|, first);
              (k in props <==> k in first) && (k in first ==> props[k] == first[k])
    {
      OtherPropertyIs(w, attributes, b, |attributes|, first, k);
    }
  }

  /** The classes of pseudo styles follow the class that was set, with spaces between. */
  lemma ClassesFollow(w: World, props: map<string, Prop>, words: seq<string>)
    requires words != [] && forall i :: 0 <= i < |words| ==> words[i] != ""
    ensures var all := WithClasses(w, props, words);
            && "className" in all && all["className"].Plain? && all["className"].v.Str?
            && (forall k :: k != "className" ==> (k in all <==> k in props) && (k in props ==> all[k] == props[k]))
            && all["className"].v.s ==
               if "className" in props && props["className"].Plain? && !Falsy(props["className"].v)
               then (if props["className"].v.Str? then props["className"].v.s else w.show(props["className"].v))
                    + " " + Spaced(words)
               else Spaced(words)
  {
    ClassesAre(w, props, words);
    hide WithClasses, Truthy, Falsy, Spaced;
  }

  lemma ClassesAre(w: World, props: map<string, Prop>, words: seq<string>)
    requires words != [] && forall i :: 0 <= i < |words| ==> words[i] != ""
    ensures WithClasses(w, props, words) == props["className" := Plain(Str(
              if "className" in props && props["className"].Plain? && !Falsy(props["className"].v)
              then TextOf(w, props["className"].v) + " " + Spaced(words) else Spaced(words)))]
  {
    AllKept(words);
    SpacedIs(words);
    hide NotEmpty, JoinWords, Spaced, TextOf;
    if "className" in props && props["className"].Plain? && Truthy(props["className"].v) {
      FirstWord(TextOf(w, props["className"].v), words);
    } else {
      assert [] + words == words;
    }
    if "className" in props && props["className"].Plain? {
      FalsyIff(props["className"].v);
    }
    hide Truthy, Falsy;
  }

  lemma FirstWord(c: string, words: seq<string>)
    requires words != []
    ensures JoinWords([c] + words) == c + " " + JoinWords(words)
  {
    assert ([c] + words)[1..] == words;
  }

  /** Words with one space between them. */
  function Spaced(words: seq<string>): string {
    if words == [] then ""
    else if |words| == 1 then words[0]
    else Spaced(words[..|words| - 1]) + " " + words[|words| - 1]
  }

  lemma {:induction false} AllKept(words: seq<string>)
    requires forall i :: 0 <= i < |words| ==> words[i] != ""
    ensures NotEmpty(words) == words
  {
    if words != [] { AllKept(words[1..]); }
  }

  lemma {:induction false} SpacedIs(words: seq<string>)
    ensures JoinWords(words) == Spaced(words)
    decreases |words|
  {
    if |words| > 1 {
      var front, last := words[..|words| - 1], words[|words| - 1];
      SpacedIs(words[1..]);
      if |words| > 2 {
        SpacedIs(words[1..|words| - 1]);
        assert front[1..] == words[1..|words| - 1] == words[1..][..|words| - 2];
        SpacedIs(front);
        assert JoinWords(front) == words[0] + " " + JoinWords(front[1..]);
      }
    }
  }

  lemma {:induction false} EmptyDropped(words: seq<string>, more: seq<string>)
    ensures NotEmpty(words + [""] + more) == NotEmpty(words + more)
  {
    if words == [] {
      assert [] + [""] + more == [""] + more && ([""] + more)[1..] == more && [] + more == more;
    } else {
      assert (words + [""] + more)[1..] == words[1..] + [""] + more;
      assert (words + more)[1..] == words[1..] + more;
      EmptyDropped(words[1..], more);
    }
  }

  // ------------------------------------------------------------ nested components

  /** Main result: a nested component without attributes has its wiring; its children are there
      if there are any. */
  lemma ImportRenders(w: World, name: string, templateId: string, hintSize: Option<string>, style: Hint,
                      kids: Nodes, b: Bindings, ctx: Context)
    ensures var outs := RenderOne(w, Import(name, templateId, hintSize, style, [], kids), b, ctx);
            && |outs| == 1 && outs[0].Component? && outs[0].name == name
            && outs[0].props == map["key" := Plain(Num(0.0)),
                                    "__hintSize" := Plain(if hintSize.Some? then Str(hintSize.value) else Null),
                                    "__tplId" := Plain(Str(templateId)),
                                    "__hostStyle" := if style.Hint? then Position(CompileAttr(w, style.raw)(b))
                                                     else Plain(Undefined)]
            && outs[0].children ==
               if Render(w, kids, b, ctx) == [] then None else Some(Render(w, kids, b, ctx))
  {
    OneNode(w, Import(name, templateId, hintSize, style, [], kids), b, ctx);
    hide CompileAttr, CompileAll;
    assert |Render(w, kids, b, ctx)| == |CompileAll(w, kids)|;
    assert CompileAttributes(w, []) == [];
    var position := if style.Hint? then Some(CompileAttr(w, style.raw)(b)) else None;
    var first := FirstImportProps(w, 0, hintSize, templateId, position);
    assert RunImportProps(w, [], b, 0, first) == first;
    hide RunImportProps, RunAll;
    assert Compile(w, Import(name, templateId, hintSize, style, [], kids)).value(b, ctx, 0).props == first;
  }

  /** One attribute more sets its property, but that `dcProps` spreads an object's own ones over
      those before it and passes over any other value. */
  lemma ImportPropertyIs(w: World, attributes: seq<(string, string)>, b: Bindings, n: nat, first: map<string, Prop>)
    requires n < |attributes|
    ensures var getters := CompileAttributes(w, attributes);
            var before, after := RunImportProps(w, getters, b, n, first), RunImportProps(w, getters, b, n + 1, first);
            var (key, v) := (attributes[n].0, CompileAttr(w, attributes[n].1)(b));
            if key != "dcProps" then after == before[key := Plain(v)]
            else if !v.Obj? && !v.Arr? then after == before
            else forall k :: (k in after <==> k in before || k in w.own(v))
                   && (k in after ==> after[k] == if k in w.own(v) then Plain(w.own(v)[k]) else before[k])
  {
    hide CompileAttr, RunImportProps;
    RunImportStep(w, CompileAttributes(w, attributes), b, n, first);
  }

  lemma RunImportStep(w: World, getters: seq<(string, Getter)>, b: Bindings, n: nat, first: map<string, Prop>)
    requires n < |getters|
    ensures RunImportProps(w, getters, b, n + 1, first) ==
            Assigned(w, RunImportProps(w, getters, b, n, first), getters[n].0, getters[n].1(b))
  {
    hide Assigned;
  }
}

/** What a template means, read off its tree directly, and that the compiled closures
    mean the same. */
module TemplateMeaning {
  import opened Options
  import opened Text
  import opened JsValues
  import opened Expressions
  import opened Holes
  import opened TemplateCompiler

  /** An attribute as it is meant: one hole from end to end, or text with holes in it. */
  datatype Attr = Whole(before: string, source: string, after: string) | Woven(m: Mixed)

  /** A template as it is meant. */
  datatype Tree =
    | Prose(m: Mixed)
    | Skipped
    | Loop(list: Attr, asName: string, hintCount: int, body: Trees)
    | Branch(test: Attr, hint: AttrHint, body: Trees)
    | Markup(name: string, nodeKey: string, templateId: string, pseudo: seq<string>,
             attributes: seq<(string, Attr)>, body: Trees)
    | Imported(name: string, templateId: string, hintSize: Option<string>, style: AttrHint,
               attributes: seq<(string, Attr)>, body: Trees)

  datatype Trees = Done | More(head: Tree, tail: Trees)

  datatype AttrHint = Unhinted | Hinted(attr: Attr)

  // Printing.

  function AttrText(a: Attr): string {
    match a
    case Whole(before, source, after) => before + "{{" + source + "}}" + after
    case Woven(m) => Print(m)
  }

  ghost predicate ProperAttr(a: Attr) {
    match a
    case Whole(before, source, after) => AllSpace(before) && AllSpace(after) && source != ""
    case Woven(m) => Proper(m) && !IsWhole(Print(m))
  }

  function AttrTexts(attributes: seq<(string, Attr)>): seq<(string, string)> {
    seq(|attributes|, i requires 0 <= i < |attributes| => (attributes[i].0, AttrText(attributes[i].1)))
  }

  function HintText(hint: AttrHint): Hint {
    if hint.Hinted? then Hint(AttrText(hint.attr)) else NoHint
  }

  function NodeOf(t: Tree): Node
    decreases t
  {
    match t
    case Prose(m) => Words(Print(m))
    case Skipped => Ignored
    case Loop(list, asName, hintCount, body) => For(AttrText(list), asName, hintCount, NodesOf(body))
    case Branch(test, hint, body) => If(AttrText(test), HintText(hint), NodesOf(body))
    case Markup(name, nodeKey, templateId, pseudo, attributes, body) =>
      Tag(name, nodeKey, templateId, pseudo, AttrTexts(attributes), NodesOf(body))
    case Imported(name, templateId, hintSize, style, attributes, body) =>
      Import(name, templateId, hintSize, HintText(style), AttrTexts(attributes), NodesOf(body))
  }

  function NodesOf(ts: Trees): Nodes
    decreases ts
  {
    match ts
    case Done => Nil
    case More(head, tail) => Cons(NodeOf(head), NodesOf(tail))
  }

  ghost predicate ProperHint(hint: AttrHint) { hint.Hinted? ==> ProperAttr(hint.attr) }

  ghost predicate ProperAttrs(attributes: seq<(string, Attr)>) {
    forall i :: 0 <= i < |attributes| ==> ProperAttr(attributes[i].1)
  }

  ghost predicate ProperTree(t: Tree)
    decreases t
  {
    match t
    case Prose(m) => Proper(m)
    case Skipped => true
    case Loop(list, _, _, body) => ProperAttr(list) && ProperTrees(body)
    case Branch(test, hint, body) => ProperAttr(test) && ProperHint(hint) && ProperTrees(body)
    case Markup(_, _, _, _, attributes, body) => ProperAttrs(attributes) && ProperTrees(body)
    case Imported(_, _, _, style, attributes, body) => ProperHint(style) && ProperAttrs(attributes) && ProperTrees(body)
  }

  ghost predicate ProperTrees(ts: Trees)
    decreases ts
  {
    match ts
    case Done => true
    case More(head, tail) => ProperTree(head) && ProperTrees(tail)
  }

  // Reading.

  /** The reading of an attribute text, with the white space around a whole hole. */
  lemma ReadAttr(raw: string) returns (a: Attr)
    ensures ProperAttr(a) && AttrText(a) == raw
  {
    if IsWhole(raw) {
      var before, after := TrimSplit(raw);
      a := Whole(before, WholeSource(raw), after);
      var t := Trim(raw);
      assert t == "{{" + t[2..|t| - 2] + "}}";
    } else {
      ReadPrints(raw);
      a := Woven(Read(raw));
    }
  }

  lemma {:induction false} ReadAttrs(raws: seq<(string, string)>) returns (attributes: seq<(string, Attr)>)
    ensures AttrTexts(attributes) == raws
    ensures ProperAttrs(attributes)
  {
    hide AttrText, ProperAttr;
    if raws == [] {
      attributes := [];
    } else {
      var a := ReadAttr(raws[0].1);
      var others := ReadAttrs(raws[1..]);
      attributes := [(raws[0].0, a)] + others;
      assert AttrTexts(attributes) == [raws[0]] + AttrTexts(others);
    }
  }

  lemma ReadHint(hint: Hint) returns (h: AttrHint)
    ensures ProperHint(h) && HintText(h) == hint
  {
    if hint.Hint? {
      var a := ReadAttr(hint.raw);
      h := Hinted(a);
    } else {
      h := Unhinted;
    }
  }

  /** Every document tree is the print of a proper template. */
  lemma {:induction false} ReadTree(n: Node) returns (t: Tree)
    ensures ProperTree(t) && NodeOf(t) == n
    decreases n
  {
    hide AttrText, ProperAttr, Proper, AttrTexts, HintText, ProperHint, ProperAttrs;
    match n
    case Words(text) =>
      ReadPrints(text);
      t := Prose(Read(text));
    case Ignored => t := Skipped;
    case For(list, asName, hintCount, kids) =>
      var a := ReadAttr(list);
      var body := ReadTrees(kids);
      t := Loop(a, asName, hintCount, body);
    case If(test, hint, kids) =>
      var a := ReadAttr(test);
      var body := ReadTrees(kids);
      var h := ReadHint(hint);
      t := Branch(a, h, body);
    case Tag(name, nodeKey, templateId, pseudo, attributes, kids) =>
      var attrs := ReadAttrs(attributes);
      var body := ReadTrees(kids);
      t := Markup(name, nodeKey, templateId, pseudo, attrs, body);
    case Import(name, templateId, hintSize, style, attributes, kids) =>
      var h := ReadHint(style);
      var attrs := ReadAttrs(attributes);
      var body := ReadTrees(kids);
      t := Imported(name, templateId, hintSize, h, attrs, body);
  }

  lemma {:induction false} ReadTrees(ns: Nodes) returns (ts: Trees)
    ensures ProperTrees(ts) && NodesOf(ts) == ns
    decreases ns
  {
    hide NodeOf, ProperTree;
    match ns
    case Nil => ts := Done;
    case Cons(head, tail) =>
      var t := ReadTree(head);
      var rest := ReadTrees(tail);
      ts := More(t, rest);
  }

  // Meaning.

  function WovenText(w: World, m: Mixed, bindings: Bindings): string {
    match m
    case Last(text) => text
    case Then(text, source, rest) =>
      text + HoleText(w, Resolve(w, Scope(bindings), source)) + WovenText(w, rest, bindings)
  }

  function AttrMeaning(w: World, a: Attr, bindings: Bindings): JsValue {
    match a
    case Whole(_, source, _) => Resolve(w, Scope(bindings), source)
    case Woven(m) => Str(WovenText(w, m, bindings))
  }

  function ProseMeaning(w: World, m: Mixed, bindings: Bindings, ctx: Context): seq<Out> {
    match m
    case Last(text) => [Chars(text)]
    case Then(text, source, rest) =>
      [Chars(text), ShowHole(w, Resolve(w, Scope(bindings), source), source, ctx)]
      + ProseMeaning(w, rest, bindings, ctx)
  }

  /** A text without braces is itself; any other is a group of its pieces. */
  predicate Unwoven(m: Mixed) { m.Last? && !HasBraces(m.text) }

  /** A node that takes a place among its siblings. */
  predicate Shown(t: Tree) { !t.Skipped? && (t.Prose? && Unwoven(t.m) ==> !Blank(t.m.text)) }

  function PropsMeaning(w: World, attributes: seq<(string, Attr)>, bindings: Bindings, n: nat,
                        first: map<string, Prop>): map<string, Prop>
    requires n <= |attributes|
  {
    if n == 0 then first
    else
      var (key, a) := attributes[n - 1];
      PropsMeaning(w, attributes, bindings, n - 1, first)[key := PropOf(key, AttrMeaning(w, a, bindings))]
  }

  function HintMeaning(w: World, hint: AttrHint, bindings: Bindings): Option<JsValue> {
    if hint.Hinted? then Some(AttrMeaning(w, hint.attr, bindings)) else None
  }

  function ImportPropsMeaning(w: World, attributes: seq<(string, Attr)>, bindings: Bindings, n: nat,
                              first: map<string, Prop>): map<string, Prop>
    requires n <= |attributes|
  {
    if n == 0 then first
    else
      var (key, a) := attributes[n - 1];
      Assigned(w, ImportPropsMeaning(w, attributes, bindings, n - 1, first), key, AttrMeaning(w, a, bindings))
  }

  /** Whether any node of these takes a place. */
  predicate AnyShown(ts: Trees) { ts.More? && (Shown(ts.head) || AnyShown(ts.tail)) }

  function Meaning(w: World, t: Tree, bindings: Bindings, ctx: Context, key: nat): Out
    decreases t
  {
    match t
    case Prose(m) => if Unwoven(m) then Chars(m.text) else Group(key, ProseMeaning(w, m, bindings, ctx))
    case Skipped => Nothing
    case Loop(list, asName, hintCount, body) =>
      var items := Items(AttrMeaning(w, list, bindings), ctx, hintCount);
      Group(key, seq(|items|, i requires 0 <= i < |items| =>
        Group(i, MeaningAll(w, body, Turn(bindings, asName, items[i], i), ctx, 0))))
    case Branch(test, hint, body) =>
      var v := AttrMeaning(w, test, bindings);
      var hinted := HintMeaning(w, hint, bindings);
      var shown := if v.Undefined? && hinted.Some? && ctx.streaming then hinted.value else v;
      if Truthy(shown) then Group(key, MeaningAll(w, body, bindings, ctx, 0)) else Nothing
    case Markup(name, nodeKey, templateId, pseudo, attributes, body) =>
      Element(name,
              WithClasses(w, PropsMeaning(w, attributes, bindings, |attributes|,
                                          FirstProps(w, key, nodeKey, templateId)), pseudo),
              MeaningAll(w, body, bindings, ctx, 0))
    case Imported(name, templateId, hintSize, style, attributes, body) =>
      var first := FirstImportProps(w, key, hintSize, templateId, HintMeaning(w, style, bindings));
      Component(name, ImportPropsMeaning(w, attributes, bindings, |attributes|, first),
                if AnyShown(body) then Some(MeaningAll(w, body, bindings, ctx, 0)) else None)
  }

  /** The shown nodes side by side, numbered from `key`. */
  function MeaningAll(w: World, ts: Trees, bindings: Bindings, ctx: Context, key: nat): seq<Out>
    decreases ts
  {
    match ts
    case Done => []
    case More(head, tail) =>
      if Shown(head) then [Meaning(w, head, bindings, ctx, key)] + MeaningAll(w, tail, bindings, ctx, key + 1)
      else MeaningAll(w, tail, bindings, ctx, key)
  }

  // The compiled form.

  lemma JoinStep(w: World, bindings: Bindings, parts: seq<string>, i: nat)
    requires i < |parts|
    ensures JoinParts(w, bindings, parts, i)
         == (if i % 2 == 1 then HoleText(w, Resolve(w, Scope(bindings), parts[i])) else parts[i])
            + JoinParts(w, bindings, parts, i + 1)
  {
  }

  lemma {:induction false} JoinOdd(w: World, bindings: Bindings, front: seq<string>, m: Mixed)
    requires |front| % 2 == 0
    ensures JoinParts(w, bindings, front + Parts(m), |front|) == WovenText(w, m, bindings)
    decreases m
  {
    var parts := front + Parts(m);
    var n := |front|;
    match m {
      case Last(text) =>
        hide Resolve, HoleText;
        assert JoinParts(w, bindings, parts, n + 1) == "";
      case Then(text, source, rest) =>
        hide Resolve, HoleText, JoinParts;
        JoinOdd(w, bindings, front + [text, source], rest);
        assert parts == front + [text, source] + Parts(rest);
        assert parts[n] == text && parts[n + 1] == source;
        JoinStep(w, bindings, parts, n);
        JoinStep(w, bindings, parts, n + 1);
        var hole := HoleText(w, Resolve(w, Scope(bindings), source));
        assert text + (hole + WovenText(w, rest, bindings)) == text + hole + WovenText(w, rest, bindings);
    }
  }

  lemma {:induction false} ShowOdd(w: World, bindings: Bindings, ctx: Context, m: Mixed)
    ensures ShowParts(w, bindings, Parts(m), ctx) == ProseMeaning(w, m, bindings, ctx)
    decreases m
  {
    hide Resolve, ShowHole;
    match m
    case Last(text) =>
    case Then(text, source, rest) =>
      ShowOdd(w, bindings, ctx, rest);
      var all, others := ShowParts(w, bindings, Parts(m), ctx), ShowParts(w, bindings, Parts(rest), ctx);
      forall i | 0 <= i < |all| ensures all[i] == ProseMeaning(w, m, bindings, ctx)[i] {
        if i >= 2 {
          assert Parts(m)[i] == Parts(rest)[i - 2];
          assert all[i] == others[i - 2];
        }
      }
  }

  lemma WholeIs(before: string, source: string, after: string)
    requires AllSpace(before) && AllSpace(after) && source != ""
    ensures var raw := before + "{{" + source + "}}" + after; IsWhole(raw) && WholeSource(raw) == source
  {
    var t := "{{" + source + "}}";
    TrimUnique(before, t, after);
    assert before + "{{" + source + "}}" + after == before + t + after;
    assert t[2..|t| - 2] == source;
  }

  /** Without braces there is no hole. */
  lemma NoBracesNoHole(raw: string)
    requires !HasBraces(raw)
    ensures Read(raw) == Last(raw)
  {
  }

  /** The getter of an attribute gives its meaning. */
  lemma AttrCompiled(w: World, a: Attr, bindings: Bindings)
    requires ProperAttr(a)
    ensures CompileAttr(w, AttrText(a))(bindings) == AttrMeaning(w, a, bindings)
  {
    hide Resolve, Proper;
    match a
    case Whole(before, source, after) => WholeIs(before, source, after);
    case Woven(m) =>
      var raw := Print(m);
      ReadIsUnique(m);
      PartsOfRead(raw);
      if HasBraces(raw) {
        JoinOdd(w, bindings, [], m);
        assert [] + Parts(m) == Parts(m);
      } else {
        NoBracesNoHole(raw);
      }
  }

  lemma {:induction false} PropsCompiled(w: World, attributes: seq<(string, Attr)>, bindings: Bindings, n: nat,
                                         first: map<string, Prop>)
    requires n <= |attributes| && ProperAttrs(attributes)
    ensures RunProps(CompileAttributes(w, AttrTexts(attributes)), bindings, n, first)
         == PropsMeaning(w, attributes, bindings, n, first)
  {
    hide CompileAttr, AttrMeaning, ProperAttr, AttrText, PropOf;
    if n > 0 {
      PropsCompiled(w, attributes, bindings, n - 1, first);
      AttrCompiled(w, attributes[n - 1].1, bindings);
    }
  }

  lemma {:induction false} ImportPropsCompiled(w: World, attributes: seq<(string, Attr)>, bindings: Bindings, n: nat,
                                               first: map<string, Prop>)
    requires n <= |attributes| && ProperAttrs(attributes)
    ensures RunImportProps(w, CompileAttributes(w, AttrTexts(attributes)), bindings, n, first)
         == ImportPropsMeaning(w, attributes, bindings, n, first)
  {
    hide CompileAttr, AttrMeaning, ProperAttr, AttrText, Assigned;
    if n > 0 {
      ImportPropsCompiled(w, attributes, bindings, n - 1, first);
      AttrCompiled(w, attributes[n - 1].1, bindings);
    }
  }

  lemma HintCompiled(w: World, hint: AttrHint, bindings: Bindings)
    requires ProperHint(hint)
    ensures var get := CompileHint(w, HintText(hint));
            (if get.Some? then Some(get.value(bindings)) else None) == HintMeaning(w, hint, bindings)
  {
    hide CompileAttr, AttrMeaning, ProperAttr, AttrText;
    if hint.Hinted? { AttrCompiled(w, hint.attr, bindings); }
  }

  /** The builder `c` of a node, where it has one, yields the meaning of the tree. */
  ghost predicate Yields(w: World, c: Option<Builder>, t: Tree, bindings: Bindings, ctx: Context, key: nat) {
    && c.Some? == Shown(t)
    && (c.Some? ==> c.value(bindings, ctx, key) == Meaning(w, t, bindings, ctx, key))
  }

  lemma WordsCompiled(w: World, m: Mixed, bindings: Bindings, ctx: Context, key: nat)
    requires Proper(m)
    ensures Yields(w, Compile(w, Words(Print(m))), Prose(m), bindings, ctx, key)
  {
    hide Resolve, Proper, ShowHole;
    var raw := Print(m);
    ReadIsUnique(m);
    PartsOfRead(raw);
    if HasBraces(raw) {
      ShowOdd(w, bindings, ctx, m);
    } else {
      NoBracesNoHole(raw);
    }
  }

  function RunFrom(kids: seq<Builder>, bindings: Bindings, ctx: Context, key: nat): seq<Out> {
    seq(|kids|, j requires 0 <= j < |kids| => kids[j](bindings, ctx, key + j))
  }

  lemma LoopCompiled(w: World, t: Tree, bindings: Bindings, ctx: Context, key: nat)
    requires t.Loop? && ProperAttr(t.list)
    requires forall item, i: nat ::
      var turn := Turn(bindings, t.asName, item, i);
      RunAll(CompileAll(w, NodesOf(t.body)), turn, ctx) == MeaningAll(w, t.body, turn, ctx, 0)
    ensures Yields(w, Compile(w, NodeOf(t)), t, bindings, ctx, key)
  {
    hide CompileAttr, AttrMeaning, ProperAttr, AttrText, CompileAll, MeaningAll, RunAll, Turn, NodesOf, Items;
    AttrCompiled(w, t.list, bindings);
  }

  lemma BranchCompiled(w: World, t: Tree, bindings: Bindings, ctx: Context, key: nat)
    requires t.Branch? && ProperAttr(t.test) && ProperHint(t.hint)
    requires RunAll(CompileAll(w, NodesOf(t.body)), bindings, ctx) == MeaningAll(w, t.body, bindings, ctx, 0)
    ensures Yields(w, Compile(w, NodeOf(t)), t, bindings, ctx, key)
  {
    hide CompileAttr, AttrMeaning, ProperAttr, AttrText, CompileAll, MeaningAll, RunAll, NodesOf,
         CompileHint, HintText, HintMeaning, ProperHint;
    AttrCompiled(w, t.test, bindings);
    HintCompiled(w, t.hint, bindings);
  }

  lemma MarkupCompiled(w: World, t: Tree, bindings: Bindings, ctx: Context, key: nat)
    requires t.Markup? && ProperAttrs(t.attributes)
    requires RunAll(CompileAll(w, NodesOf(t.body)), bindings, ctx) == MeaningAll(w, t.body, bindings, ctx, 0)
    ensures Yields(w, Compile(w, NodeOf(t)), t, bindings, ctx, key)
  {
    hide AttrTexts, CompileAll, MeaningAll, RunAll, NodesOf, PropsMeaning, RunProps, WithClasses, FirstProps,
        ProperAttrs;
    PropsCompiled(w, t.attributes, bindings, |t.attributes|, FirstProps(w, key, t.nodeKey, t.templateId));
    assert |CompileAttributes(w, AttrTexts(t.attributes))| == |t.attributes| by { SameCount(w, t.attributes); }
  }

  lemma SameCount(w: World, attributes: seq<(string, Attr)>)
    ensures |CompileAttributes(w, AttrTexts(attributes))| == |attributes|
  {
    hide CompileAttr, AttrText;
  }

  /** A node has a builder exactly when it takes a place. */
  lemma HasBuilder(w: World, t: Tree)
    requires ProperTree(t)
    ensures Compile(w, NodeOf(t)).Some? == Shown(t)
  {
    hide CompileAttr, CompileAll, CompileAttributes, CompileHint, NodesOf, AttrText, AttrTexts, HintText, Proper,
         ProperAttr, ProperAttrs, ProperHint, ProperTrees;
    if t.Prose? { WordsCompiled(w, t.m, map[], Context(false, false), 0); }
  }

  lemma {:induction false} AnyBuilder(w: World, ts: Trees)
    requires ProperTrees(ts)
    ensures CompileAll(w, NodesOf(ts)) == [] <==> !AnyShown(ts)
    decreases ts
  {
    hide Compile, Shown, NodeOf, ProperTree;
    match ts
    case Done =>
    case More(head, tail) =>
      HasBuilder(w, head);
      AnyBuilder(w, tail);
  }

  lemma ImportCompiled(w: World, t: Tree, bindings: Bindings, ctx: Context, key: nat)
    requires t.Imported? && ProperHint(t.style) && ProperAttrs(t.attributes)
    requires RunAll(CompileAll(w, NodesOf(t.body)), bindings, ctx) == MeaningAll(w, t.body, bindings, ctx, 0)
    requires ProperTrees(t.body)
    ensures Yields(w, Compile(w, NodeOf(t)), t, bindings, ctx, key)
  {
    hide AttrTexts, CompileAll, MeaningAll, RunAll, NodesOf, ImportPropsMeaning, RunImportProps, FirstImportProps,
        ProperAttrs,
         CompileHint, HintText, HintMeaning, ProperHint, AnyShown, CompileAttributes, ProperTrees;
    AnyBuilder(w, t.body);
    HintCompiled(w, t.style, bindings);
    SameCount(w, t.attributes);
    ImportPropsCompiled(w, t.attributes, bindings, |t.attributes|,
                        FirstImportProps(w, key, t.hintSize, t.templateId, HintMeaning(w, t.style, bindings)));
  }

  /** Compiling and running a template is interpreting it: for every tree, under every
      bindings, in every context and at every place. */
  lemma {:induction false} Compiled(w: World, t: Tree, bindings: Bindings, ctx: Context, key: nat)
    requires ProperTree(t)
    ensures Yields(w, Compile(w, NodeOf(t)), t, bindings, ctx, key)
    decreases t
  {
    match t {
      case Prose(m) => WordsCompiled(w, m, bindings, ctx, key);
      case Skipped =>
      case Loop(list, asName, hintCount, body) =>
        hide Yields, RunAll, CompileAll, MeaningAll, Turn, Compile, NodeOf, NodesOf, ProperAttr;
        forall item, i: nat
          ensures var turn := Turn(bindings, asName, item, i);
                  RunAll(CompileAll(w, NodesOf(body)), turn, ctx) == MeaningAll(w, body, turn, ctx, 0)
        {
          CompiledAll(w, body, Turn(bindings, asName, item, i), ctx, 0);
        }
        LoopCompiled(w, t, bindings, ctx, key);
      case Branch(test, hint, body) =>
        hide Yields, RunAll, CompileAll, MeaningAll, Compile, NodeOf, NodesOf, ProperAttr, ProperHint;
        CompiledAll(w, body, bindings, ctx, 0);
        BranchCompiled(w, t, bindings, ctx, key);
      case Markup(name, nodeKey, templateId, pseudo, attributes, body) =>
        hide Yields, RunAll, CompileAll, MeaningAll, Compile, NodeOf, NodesOf, ProperAttrs;
        CompiledAll(w, body, bindings, ctx, 0);
        MarkupCompiled(w, t, bindings, ctx, key);
      case Imported(name, templateId, hintSize, style, attributes, body) =>
        hide Yields, RunAll, CompileAll, MeaningAll, Compile, NodeOf, NodesOf, ProperAttrs, ProperHint;
        CompiledAll(w, body, bindings, ctx, 0);
        ImportCompiled(w, t, bindings, ctx, key);
    }
  }

  lemma RunFromFront(first: Builder, others: seq<Builder>, bindings: Bindings, ctx: Context, key: nat)
    ensures RunFrom([first] + others, bindings, ctx, key)
         == [first(bindings, ctx, key)] + RunFrom(others, bindings, ctx, key + 1)
  {
  }

  lemma RunFromStart(kids: seq<Builder>, bindings: Bindings, ctx: Context)
    ensures RunFrom(kids, bindings, ctx, 0) == RunAll(kids, bindings, ctx)
  {
  }

  lemma {:induction false} CompiledAll(w: World, ts: Trees, bindings: Bindings, ctx: Context, key: nat)
    requires ProperTrees(ts)
    ensures RunFrom(CompileAll(w, NodesOf(ts)), bindings, ctx, key) == MeaningAll(w, ts, bindings, ctx, key)
    ensures key == 0 ==> RunAll(CompileAll(w, NodesOf(ts)), bindings, ctx) == MeaningAll(w, ts, bindings, ctx, key)
    decreases ts
  {
    match ts {
      case Done =>
      case More(head, tail) =>
        hide Compile, Meaning, Shown, RunFrom, RunAll, NodeOf, ProperTree;
        Compiled(w, head, bindings, ctx, key);
        var c := Compile(w, NodeOf(head));
        var others := CompileAll(w, NodesOf(tail));
        if c.Some? {
          CompiledAll(w, tail, bindings, ctx, key + 1);
          RunFromFront(c.value, others, bindings, ctx, key);
        } else {
          CompiledAll(w, tail, bindings, ctx, key);
          assert CompileAll(w, NodesOf(ts)) == others;
        }
    }
    RunFromStart(CompileAll(w, NodesOf(ts)), bindings, ctx);
  }
}

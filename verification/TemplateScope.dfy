/** Which bindings a template can read, with loops shadowing outer names. */
module TemplateScope {
  import opened Text
  import opened JsValues
  import opened Expressions
  import opened ExpressionScope
  import opened Holes
  import opened TemplateCompiler
  import opened TemplateMeaning

  function FreeInMixed(m: Mixed): set<string> {
    match m
    case Last(_) => {}
    case Then(_, source, rest) => FreeNames(source) + FreeInMixed(rest)
  }

  function FreeInAttr(a: Attr): set<string> {
    match a
    case Whole(_, source, _) => FreeNames(source)
    case Woven(m) => FreeInMixed(m)
  }

  function FreeInAttrs(attributes: seq<(string, Attr)>, n: nat): set<string>
    requires n <= |attributes|
  {
    if n == 0 then {} else FreeInAttrs(attributes, n - 1) + FreeInAttr(attributes[n - 1].1)
  }

  function FreeInHint(hint: AttrHint): set<string> {
    if hint.Hinted? then FreeInAttr(hint.attr) else {}
  }

  /** The names a template reads from outside: a loop binds its item name and `$index`
      in its body, not in its list. */
  function Free(t: Tree): set<string>
    decreases t
  {
    match t
    case Prose(m) => FreeInMixed(m)
    case Skipped => {}
    case Loop(list, asName, _, body) => FreeInAttr(list) + (FreeInAll(body) - {asName, "$index"})
    case Branch(test, hint, body) => FreeInAttr(test) + FreeInHint(hint) + FreeInAll(body)
    case Markup(_, _, _, _, attributes, body) => FreeInAttrs(attributes, |attributes|) + FreeInAll(body)
    case Imported(_, _, _, style, attributes, body) =>
      FreeInHint(style) + FreeInAttrs(attributes, |attributes|) + FreeInAll(body)
  }

  function FreeInAll(ts: Trees): set<string>
    decreases ts
  {
    match ts
    case Done => {}
    case More(head, tail) => Free(head) + FreeInAll(tail)
  }

  /** Two renders whose bindings answer alike for every name of `names`. */
  ghost predicate Alike(w: World, a: Bindings, b: Bindings, names: set<string>) {
    AgreeOn(w, Scope(a), Scope(b), names)
  }

  lemma {:induction false} WovenAlike(w: World, m: Mixed, a: Bindings, b: Bindings)
    requires Alike(w, a, b, FreeInMixed(m))
    ensures WovenText(w, m, a) == WovenText(w, m, b)
  {
    hide Resolve, FreeNames, HoleText;
    match m
    case Last(_) =>
    case Then(_, source, rest) =>
      Coincidence(w, Scope(a), Scope(b), source);
      WovenAlike(w, rest, a, b);
  }

  lemma {:induction false} ProseAlike(w: World, m: Mixed, a: Bindings, b: Bindings, ctx: Context)
    requires Alike(w, a, b, FreeInMixed(m))
    ensures ProseMeaning(w, m, a, ctx) == ProseMeaning(w, m, b, ctx)
  {
    hide Resolve, FreeNames, ShowHole;
    match m
    case Last(_) =>
    case Then(_, source, rest) =>
      Coincidence(w, Scope(a), Scope(b), source);
      ProseAlike(w, rest, a, b, ctx);
  }

  lemma AttrAlike(w: World, at: Attr, a: Bindings, b: Bindings)
    requires Alike(w, a, b, FreeInAttr(at))
    ensures AttrMeaning(w, at, a) == AttrMeaning(w, at, b)
  {
    hide Resolve, FreeNames;
    match at
    case Whole(_, source, _) => Coincidence(w, Scope(a), Scope(b), source);
    case Woven(m) => WovenAlike(w, m, a, b);
  }

  lemma {:induction false} PropsAlike(w: World, attributes: seq<(string, Attr)>, a: Bindings, b: Bindings, n: nat,
                                      first: map<string, Prop>)
    requires n <= |attributes| && Alike(w, a, b, FreeInAttrs(attributes, n))
    ensures PropsMeaning(w, attributes, a, n, first) == PropsMeaning(w, attributes, b, n, first)
  {
    hide AttrMeaning, FreeInAttr, PropOf;
    if n > 0 {
      PropsAlike(w, attributes, a, b, n - 1, first);
      AttrAlike(w, attributes[n - 1].1, a, b);
    }
  }

  lemma {:induction false} ImportPropsAlike(w: World, attributes: seq<(string, Attr)>, a: Bindings, b: Bindings,
                                            n: nat, first: map<string, Prop>)
    requires n <= |attributes| && Alike(w, a, b, FreeInAttrs(attributes, n))
    ensures ImportPropsMeaning(w, attributes, a, n, first) == ImportPropsMeaning(w, attributes, b, n, first)
  {
    hide AttrMeaning, FreeInAttr, Assigned;
    if n > 0 {
      ImportPropsAlike(w, attributes, a, b, n - 1, first);
      AttrAlike(w, attributes[n - 1].1, a, b);
    }
  }

  lemma HintAlike(w: World, hint: AttrHint, a: Bindings, b: Bindings)
    requires Alike(w, a, b, FreeInHint(hint))
    ensures HintMeaning(w, hint, a) == HintMeaning(w, hint, b)
  {
    hide AttrMeaning, FreeInAttr;
    if hint.Hinted? { AttrAlike(w, hint.attr, a, b); }
  }

  /** One turn of a loop closes over its own names. */
  lemma TurnAlike(w: World, names: set<string>, a: Bindings, b: Bindings, asName: string, item: JsValue, i: nat)
    requires Alike(w, a, b, names - {asName, "$index"})
    ensures Alike(w, Turn(a, asName, item, i), Turn(b, asName, item, i), names)
  {
    forall n | n in names
      ensures Lookup(w, Scope(Turn(a, asName, item, i)), n) == Lookup(w, Scope(Turn(b, asName, item, i)), n)
    {
      if n != asName && n != "$index" {
        assert n in names - {asName, "$index"};
      }
    }
  }

  /** The output of a template depends on the bindings only through its free names. */
  lemma {:induction false} TreeAlike(w: World, t: Tree, a: Bindings, b: Bindings, ctx: Context, key: nat)
    requires Alike(w, a, b, Free(t))
    ensures Meaning(w, t, a, ctx, key) == Meaning(w, t, b, ctx, key)
    decreases t
  {
    hide AttrMeaning, FreeInAttr, MeaningAll, PropsMeaning, ProseMeaning, FreeInAll, FreeInAttrs, FreeInMixed,
        FreeInHint,
         HintMeaning, ImportPropsMeaning, FirstImportProps, WithClasses;
    match t
    case Prose(m) => ProseAlike(w, m, a, b, ctx);
    case Skipped =>
    case Loop(list, asName, hintCount, body) =>
      AttrAlike(w, list, a, b);
      var items := Items(AttrMeaning(w, list, a), ctx, hintCount);
      forall i | 0 <= i < |items|
        ensures MeaningAll(w, body, Turn(a, asName, items[i], i), ctx, 0)
             == MeaningAll(w, body, Turn(b, asName, items[i], i), ctx, 0)
      {
        TurnAlike(w, FreeInAll(body), a, b, asName, items[i], i);
        TreesAlike(w, body, Turn(a, asName, items[i], i), Turn(b, asName, items[i], i), ctx, 0);
      }
    case Branch(test, hint, body) =>
      AttrAlike(w, test, a, b);
      HintAlike(w, hint, a, b);
      TreesAlike(w, body, a, b, ctx, 0);
    case Markup(_, nodeKey, templateId, _, attributes, body) =>
      PropsAlike(w, attributes, a, b, |attributes|, FirstProps(w, key, nodeKey, templateId));
      TreesAlike(w, body, a, b, ctx, 0);
    case Imported(_, templateId, hintSize, style, attributes, body) =>
      HintAlike(w, style, a, b);
      ImportPropsAlike(w, attributes, a, b, |attributes|,
                       FirstImportProps(w, key, hintSize, templateId, HintMeaning(w, style, a)));
      TreesAlike(w, body, a, b, ctx, 0);
  }

  lemma {:induction false} TreesAlike(w: World, ts: Trees, a: Bindings, b: Bindings, ctx: Context, key: nat)
    requires Alike(w, a, b, FreeInAll(ts))
    ensures MeaningAll(w, ts, a, ctx, key) == MeaningAll(w, ts, b, ctx, key)
    decreases ts
  {
    hide Meaning, Free, Shown;
    match ts
    case Done =>
    case More(head, tail) =>
      TreeAlike(w, head, a, b, ctx, key);
      TreesAlike(w, tail, a, b, ctx, if Shown(head) then key + 1 else key);
  }

  /** Shadowing: what a loop's own names are bound to outside never shows inside. */
  lemma OuterBindingHidden(w: World, t: Tree, bindings: Bindings, outer: JsValue, name: string, ctx: Context, key: nat)
    requires t.Loop? && (name == t.asName || name == "$index") && name !in FreeInAttr(t.list)
    ensures Meaning(w, t, bindings[name := outer], ctx, key) == Meaning(w, t, bindings, ctx, key)
  {
    TreeAlike(w, t, bindings[name := outer], bindings, ctx, key);
  }

  /** The rendered document: every node list means some template, and what is rendered
      is its meaning, the same under all bindings that agree on its free names. */
  lemma Rendered(w: World, nodes: Nodes, a: Bindings, b: Bindings, ctx: Context) returns (ts: Trees)
    ensures ProperTrees(ts) && NodesOf(ts) == nodes
    ensures Render(w, nodes, a, ctx) == MeaningAll(w, ts, a, ctx, 0)
    ensures Alike(w, a, b, FreeInAll(ts)) ==> Render(w, nodes, a, ctx) == Render(w, nodes, b, ctx)
  {
    hide MeaningAll, CompileAll, FreeInAll, NodesOf;
    ts := ReadTrees(nodes);
    CompiledAll(w, ts, a, ctx, 0);
    CompiledAll(w, ts, b, ctx, 0);
    if Alike(w, a, b, FreeInAll(ts)) {
      TreesAlike(w, ts, a, b, ctx, 0);
    }
  }
}

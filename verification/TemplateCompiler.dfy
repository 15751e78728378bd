/** The template compiler: a tree of document nodes becomes closures that are run
    against the bindings of a render. */
module TemplateCompiler {
  import opened Options
  import opened Text
  import opened JsValues
  import opened Expressions
  import opened Holes

  /** A document node as the compiler meets it. `nodeKey` is the suffix that keys inline
      content, `templateId` the stamp of the node, `pseudo` the classes made for its pseudo
      styles; attributes carry the property name they were given. `Import` is a component
      of its own. */
  datatype Node =
    | Words(text: string)
    | Ignored
    | For(list: string, asName: string, hintCount: int, kids: Nodes)
    | If(test: string, hint: Hint, kids: Nodes)
    | Tag(name: string, nodeKey: string, templateId: string, pseudo: seq<string>,
          attributes: seq<(string, string)>, kids: Nodes)
    | Import(name: string, templateId: string, hintSize: Option<string>, style: Hint,
             attributes: seq<(string, string)>, kids: Nodes)

  datatype Nodes = Nil | Cons(head: Node, tail: Nodes)

  datatype Hint = NoHint | Hint(raw: string)

  /** What a builder knows of its component: whether it still streams, and whether the
      page is open in the editor. */
  datatype Context = Context(streaming: bool, editing: bool)

  type Bindings = map<string, JsValue>

  /** What is handed to the renderer. */
  datatype Out =
    | Nothing
    | Chars(text: string)
    | Value(v: JsValue)
    | Span(class_: string, text: string)
    | Group(index: nat, outs: seq<Out>)
    | Element(name: string, props: map<string, Prop>, outs: seq<Out>)
    | Component(name: string, props: map<string, Prop>, children: Option<seq<Out>>)

  /** A property: a value, the style object made of a text, or the part of a style that
      positions a component. */
  datatype Prop = Plain(v: JsValue) | Style(css: string) | Position(of: JsValue)

  type Getter = Bindings -> JsValue

  type Builder = (Bindings, Context, nat) -> Out

  // Attributes.

  /** The source of a text that is one hole from end to end, white space aside. */
  predicate IsWhole(raw: string) {
    var t := Trim(raw);
    |t| >= 5 && t[..2] == "{{" && t[|t| - 2..] == "}}"
  }

  function WholeSource(raw: string): string
    requires IsWhole(raw)
  {
    var t := Trim(raw);
    t[2..|t| - 2]
  }

  /** `String(v)`. */
  function TextOf(w: World, v: JsValue): string { if v.Str? then v.s else w.show(v) }

  /** A hole inside text: undefined and null are empty. */
  function HoleText(w: World, v: JsValue): string { if v.Undefined? || v.Null? then "" else TextOf(w, v) }

  /** Joins the parts from `i` on; the odd ones are holes. */
  function JoinParts(w: World, bindings: Bindings, parts: seq<string>, i: nat): string
    requires i <= |parts|
    decreases |parts| - i
  {
    if i == |parts| then ""
    else (if i % 2 == 1 then HoleText(w, Resolve(w, Scope(bindings), parts[i])) else parts[i])
         + JoinParts(w, bindings, parts, i + 1)
  }

  /** Two braces somewhere in the text. */
  predicate HasBraces(raw: string) { FirstPair(raw, '{', 0) < |raw| }

  function CompileAttr(w: World, raw: string): Getter {
    if IsWhole(raw) then
      var source := WholeSource(raw);
      (bindings: Bindings) => Resolve(w, Scope(bindings), source)
    else if HasBraces(raw) then
      var parts := SplitHoles(raw);
      (bindings: Bindings) => Str(JoinParts(w, bindings, parts, 0))
    else (bindings: Bindings) => Str(raw)
  }

  // Text.

  /** One hole of a text node. */
  function ShowHole(w: World, v: JsValue, source: string, ctx: Context): Out {
    if v.Undefined? then
      if ctx.streaming then Span("sc-interp sc-missing", Trim(source))
      else if ctx.editing then Span("sc-interp sc-unresolved", "{{ " + Trim(source) + " }}")
      else Nothing
    else if w.isElement(v) || v.Arr? then Value(v)
    else if v.Null? || v.Bool? then Nothing
    else Span("sc-interp", TextOf(w, v))
  }

  function ShowParts(w: World, bindings: Bindings, parts: seq<string>, ctx: Context): seq<Out> {
    seq(|parts|, i requires 0 <= i < |parts| =>
      if i % 2 == 1 then ShowHole(w, Resolve(w, Scope(bindings), parts[i]), parts[i], ctx) else Chars(parts[i]))
  }

  /** White space without a plain space between nodes is not shown. */
  predicate Blank(text: string) { Trim(text) == "" && ' ' !in text }

  function CompileWords(w: World, text: string): Option<Builder> {
    if !HasBraces(text) then
      if Blank(text) then None else Some((bindings: Bindings, ctx: Context, key: nat) => Chars(text))
    else
      var parts := SplitHoles(text);
      Some((bindings: Bindings, ctx: Context, key: nat) => Group(key, ShowParts(w, bindings, parts, ctx)))
  }

  // Control.

  /** The items a loop runs over. */
  function Items(v: JsValue, ctx: Context, hintCount: int): seq<JsValue> {
    if v.Arr? then v.items
    else if ctx.streaming && hintCount > 0 then seq(hintCount, i => Undefined)
    else []
  }

  /** The bindings of one turn of a loop: the index is bound last. */
  function Turn(bindings: Bindings, asName: string, item: JsValue, i: nat): Bindings {
    bindings[asName := item]["$index" := Num(i as real)]
  }

  /** Runs builders side by side, each keyed by its place. */
  function RunAll(kids: seq<Builder>, bindings: Bindings, ctx: Context): seq<Out> {
    seq(|kids|, j requires 0 <= j < |kids| => kids[j](bindings, ctx, j))
  }

  // Elements.

  function PropOf(key: string, v: JsValue): Prop {
    if key == "style" && v.Str? then Style(v.s)
    else if v.Undefined? && key == "checked" then Plain(Bool(false))
    else if v.Undefined? && key == "value" then Plain(Str(""))
    else Plain(v)
  }

  /** `String(key) + suffix` for the place of an element among its siblings. */
  function FirstProps(w: World, key: nat, nodeKey: string, templateId: string): map<string, Prop> {
    map["key" := Plain(Str(w.show(Num(key as real)) + nodeKey)), "data-dc-tpl" := Plain(Str(templateId))]
  }

  function CompileAttributes(w: World, attributes: seq<(string, string)>): seq<(string, Getter)> {
    seq(|attributes|, i requires 0 <= i < |attributes| => (attributes[i].0, CompileAttr(w, attributes[i].1)))
  }

  /** Sets the first `n` properties, a later one over an earlier one of the same name. */
  function RunProps(getters: seq<(string, Getter)>, bindings: Bindings, n: nat,
                    first: map<string, Prop>): map<string, Prop>
    requires n <= |getters|
  {
    if n == 0 then first
    else
      var (name, getter) := getters[n - 1];
      RunProps(getters, bindings, n - 1, first)[name := PropOf(name, getter(bindings))]
  }

  function JoinWords(words: seq<string>): string {
    if words == [] then "" else if |words| == 1 then words[0] else words[0] + " " + JoinWords(words[1..])
  }

  function NotEmpty(words: seq<string>): seq<string> {
    if words == [] then [] else (if words[0] == "" then [] else [words[0]]) + NotEmpty(words[1..])
  }

  /** The classes of the pseudo styles come after the class that was set. */
  function WithClasses(w: World, props: map<string, Prop>, pseudo: seq<string>): map<string, Prop> {
    if pseudo == [] then props
    else
      var set_ := if "className" in props && props["className"].Plain? && Truthy(props["className"].v)
                  then [TextOf(w, props["className"].v)] else [];
      props["className" := Plain(Str(JoinWords(set_ + NotEmpty(pseudo))))]
  }

  // Components.

  function FirstImportProps(w: World, key: nat, hintSize: Option<string>, templateId: string,
                            style: Option<JsValue>): map<string, Prop> {
    map["key" := Plain(Num(key as real)),
        "__hintSize" := Plain(if hintSize.Some? then Str(hintSize.value) else Null),
        "__tplId" := Plain(Str(templateId)),
        "__hostStyle" := if style.Some? then Position(style.value) else Plain(Undefined)]
  }

  /** `dcProps` spreads an object over the properties set so far; a value that is no object
      is passed over. */
  function Assigned(w: World, props: map<string, Prop>, key: string, v: JsValue): map<string, Prop> {
    if key == "dcProps" then
      if v.Obj? || v.Arr? then props + (map k | k in w.own(v) :: Plain(w.own(v)[k])) else props
    else props[key := Plain(v)]
  }

  function RunImportProps(w: World, getters: seq<(string, Getter)>, bindings: Bindings, n: nat,
                          first: map<string, Prop>): map<string, Prop>
    requires n <= |getters|
  {
    if n == 0 then first
    else Assigned(w, RunImportProps(w, getters, bindings, n - 1, first), getters[n - 1].0, getters[n - 1].1(bindings))
  }

  // Nodes.

  function CompileHint(w: World, hint: Hint): Option<Getter> {
    if hint.Hint? then Some(CompileAttr(w, hint.raw)) else None
  }

  function Compile(w: World, node: Node): Option<Builder>
    decreases node
  {
    match node
    case Words(text) => CompileWords(w, text)
    case Ignored => None
    case For(list, asName, hintCount, kids) =>
      var listGet := CompileAttr(w, list);
      var builders := CompileAll(w, kids);
      Some((bindings: Bindings, ctx: Context, key: nat) =>
        var items := Items(listGet(bindings), ctx, hintCount);
        Group(key, seq(|items|, i requires 0 <= i < |items| =>
          Group(i, RunAll(builders, Turn(bindings, asName, items[i], i), ctx)))))
    case If(test, hint, kids) =>
      var testGet := CompileAttr(w, test);
      var hintGet := CompileHint(w, hint);
      var builders := CompileAll(w, kids);
      Some((bindings: Bindings, ctx: Context, key: nat) =>
        var v := testGet(bindings);
        var shown := if v.Undefined? && hintGet.Some? && ctx.streaming then hintGet.value(bindings) else v;
        if Truthy(shown) then Group(key, RunAll(builders, bindings, ctx)) else Nothing)
    case Tag(name, nodeKey, templateId, pseudo, attributes, kids) =>
      var getters := CompileAttributes(w, attributes);
      var builders := CompileAll(w, kids);
      Some((bindings: Bindings, ctx: Context, key: nat) =>
        Element(name, WithClasses(w, RunProps(getters, bindings, |getters|, FirstProps(w, key, nodeKey, templateId)),
                                  pseudo),
                RunAll(builders, bindings, ctx)))
    case Import(name, templateId, hintSize, style, attributes, kids) =>
      var styleGet := CompileHint(w, style);
      var getters := CompileAttributes(w, attributes);
      var builders := CompileAll(w, kids);
      Some((bindings: Bindings, ctx: Context, key: nat) =>
        var position := if styleGet.Some? then Some(styleGet.value(bindings)) else None;
        Component(name,
                  RunImportProps(w, getters, bindings, |getters|,
                                 FirstImportProps(w, key, hintSize, templateId, position)),
                  if builders == [] then None else Some(RunAll(builders, bindings, ctx))))
  }

  /** The builders of the children that have one. */
  function CompileAll(w: World, nodes: Nodes): seq<Builder>
    decreases nodes
  {
    match nodes
    case Nil => []
    case Cons(head, tail) =>
      var first := Compile(w, head);
      (if first.Some? then [first.value] else []) + CompileAll(w, tail)
  }

  /** The render function of a template. */
  function Render(w: World, nodes: Nodes, bindings: Bindings, ctx: Context): seq<Out> {
    RunAll(CompileAll(w, nodes), bindings, ctx)
  }
}

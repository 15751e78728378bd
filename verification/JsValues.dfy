/** The JavaScript values a template can meet, and the parts of the language that
    are left open: property reads, loose equality and conversion to text. */
module JsValues {

  /** Numbers are exact reals (both zeros are one value); arrays and objects carry
      the identity that `===` compares. */
  datatype JsValue =
    | Undefined
    | Null
    | Bool(b: bool)
    | Num(n: real)
    | NaN
    | Infinite(negative: bool)
    | Str(s: string)
    | Arr(arrayId: nat, items: seq<JsValue>)
    | Obj(objectId: nat)

  /** What the template runtime takes from its surroundings. `get` reads a property
      of a value that is neither undefined nor null; `inherited` is what a scope
      object answers for a name it does not hold itself; `own` is what spreading an object
      copies. */
  datatype World = World(
    get: (JsValue, JsValue) -> JsValue,
    loose: (JsValue, JsValue) -> bool,
    inherited: string -> JsValue,
    show: JsValue -> string,
    isElement: JsValue -> bool,
    own: JsValue -> map<string, JsValue>)

  /** The object a template is rendered against; it may be missing altogether. */
  datatype Scope = NoScope | Scope(bindings: map<string, JsValue>)

  function Lookup(w: World, vals: Scope, name: string): JsValue {
    match vals
    case NoScope => Undefined
    case Scope(bindings) => if name in bindings then bindings[name] else w.inherited(name)
  }

  function Member(w: World, v: JsValue, key: JsValue): JsValue {
    if v.Undefined? || v.Null? then Undefined else w.get(v, key)
  }

  predicate StrictlyEqual(a: JsValue, b: JsValue) {
    match (a, b)
    case (NaN, _) => false
    case (Arr(i, _), Arr(j, _)) => i == j
    case _ => a == b
  }

  predicate Truthy(v: JsValue) {
    match v
    case Undefined => false
    case Null => false
    case Bool(b) => b
    case Num(n) => n != 0.0
    case NaN => false
    case Infinite(_) => true
    case Str(s) => s != ""
    case Arr(_, _) => true
    case Obj(_) => true
  }
}

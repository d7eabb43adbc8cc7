/** The values a context exchanges with its peer: argument lists, return
    values and thrown values, as the trees the codec sees after decoding. */
module Values {

  datatype Option<+T> = None | Some(value: T)

  /** A function value, told apart by where it came from. */
  datatype Fn =
    | Host(handle: nat)                        // a function of the host program: a named function, a callback
    | Settle(resolveId: string, fulfil: bool)  // resolve (fulfil) or reject function of the outbound call minted with resolveId
    | Remote(id: string, gen: nat)             // proxy made by injection number gen for the peer's handle id
    | NamedCaller(name: string)                // what the named-function facade returns for property name

  /** A tree of JavaScript values. `Obj(keys, items)` is a plain object whose
      own enumerable keys, in order, are `keys`, with `keys[i]` naming
      `items[i]`. A `Placeholder` is the empty object that stands in for an
      extracted function; its token is the object's identity. A `HostError`
      is an Error instance, which has no enumerable keys. */
  datatype Value =
    | Undefined
    | Null
    | Bool(b: bool)
    | Num(n: int)
    | Str(s: string)
    | Arr(items: seq<Value>)
    | Obj(keys: seq<string>, items: seq<Value>)
    | Func(f: Fn)
    | Placeholder(token: nat)
    | HostError(message: string)

  /** `typeof v == "object"` in JavaScript: null, arrays and objects. */
  predicate IsObject(v: Value) {
    v.Null? || v.Arr? || v.Obj? || v.Placeholder? || v.HostError?
  }

  /** Does a null occur anywhere in the tree? */
  predicate HasNull(v: Value)
    decreases v
  {
    match v
    case Null => true
    case Arr(items) => HasNullItems(items)
    case Obj(_, items) => HasNullItems(items)
    case _ => false
  }

  predicate HasNullItems(items: seq<Value>)
    decreases items
  {
    items != [] && (HasNullItems(items[..|items| - 1]) || HasNull(items[|items| - 1]))
  }

  /** The function values of the tree, depth first, left to right. */
  function Fns(v: Value): seq<Fn>
    decreases v
  {
    match v
    case Func(f) => [f]
    case Arr(items) => FnsItems(items)
    case Obj(_, items) => FnsItems(items)
    case _ => []
  }

  function FnsItems(items: seq<Value>): seq<Fn>
    decreases items
  {
    if items == [] then [] else FnsItems(items[..|items| - 1]) + Fns(items[|items| - 1])
  }

  /** Plain data: no null, no function, no identity-bearing object. */
  predicate Plain(v: Value)
    decreases v
  {
    match v
    case Null => false
    case Func(_) => false
    case Placeholder(_) => false
    case HostError(_) => false
    case Arr(items) => PlainItems(items)
    case Obj(_, items) => PlainItems(items)
    case _ => true
  }

  predicate PlainItems(items: seq<Value>)
    decreases items
  {
    items == [] || (PlainItems(items[..|items| - 1]) && Plain(items[|items| - 1]))
  }

  /** The tree with every function replaced by one fixed marker and every
      object without enumerable keys (placeholder, error) by `{}`: what a
      tree looks like once function identity is forgotten. */
  function Shape(v: Value): Value
    decreases v
  {
    match v
    case Func(_) => Func(Host(0))
    case Placeholder(_) => Obj([], [])
    case HostError(_) => Obj([], [])
    case Arr(items) => Arr(ShapeItems(items))
    case Obj(keys, items) => Obj(keys, ShapeItems(items))
    case _ => v
  }

  function ShapeItems(items: seq<Value>): seq<Value>
    decreases items
  {
    if items == [] then [] else ShapeItems(items[..|items| - 1]) + [Shape(items[|items| - 1])]
  }

  /** The tokens of the placeholders of the tree, depth first, left to right. */
  function Tokens(v: Value): seq<nat>
    decreases v
  {
    match v
    case Placeholder(k) => [k]
    case Arr(items) => TokensItems(items)
    case Obj(_, items) => TokensItems(items)
    case _ => []
  }

  function TokensItems(items: seq<Value>): seq<nat>
    decreases items
  {
    if items == [] then [] else TokensItems(items[..|items| - 1]) + Tokens(items[|items| - 1])
  }

  /** The shape a received tree takes once every placeholder in it has been
      turned into a function: `Shape` with placeholders read as functions. */
  function Skeleton(v: Value): Value
    decreases v
  {
    match v
    case Func(_) => Func(Host(0))
    case Placeholder(_) => Func(Host(0))
    case HostError(_) => Obj([], [])
    case Arr(items) => Arr(SkeletonItems(items))
    case Obj(keys, items) => Obj(keys, SkeletonItems(items))
    case _ => v
  }

  function SkeletonItems(items: seq<Value>): seq<Value>
    decreases items
  {
    if items == [] then [] else SkeletonItems(items[..|items| - 1]) + [Skeleton(items[|items| - 1])]
  }

  /** Appending one element to a sequence of items appends its part to each
      of the item walks. */
  lemma ItemsSnoc(init: seq<Value>, last: Value)
    ensures ShapeItems(init + [last]) == ShapeItems(init) + [Shape(last)]
    ensures SkeletonItems(init + [last]) == SkeletonItems(init) + [Skeleton(last)]
    ensures FnsItems(init + [last]) == FnsItems(init) + Fns(last)
    ensures TokensItems(init + [last]) == TokensItems(init) + Tokens(last)
    ensures HasNullItems(init + [last]) == (HasNullItems(init) || HasNull(last))
  {
    assert (init + [last])[..|init|] == init;
  }
}

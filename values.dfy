/**
 * The Python values that flow through the caches: what a key is rendered to by
 * `str()`, and which values Python treats as false.
 */
module Values {
  import Decimal

  /**
   * A Python value.  `Nil` is Python's None; a `Dict` lists its items in
   * iteration order; `Entity` is a mapped database object, of which the code
   * only ever reads the integer attribute `id`.
   */
  datatype Value =
    | Nil
    | Bool(b: bool)
    | Int(i: int)
    | Str(s: string)
    | Tuple(elems: seq<Value>)
    | List(elems: seq<Value>)
    | Dict(items: seq<Item>)
    | Entity(id: int, attrs: seq<Value>)

  /** One `key: value` item of a dict. */
  datatype Item = Item(key: Value, val: Value)

  /** Python truthiness: None, False, 0 and empty strings, tuples, lists and dicts are false. */
  predicate Truthy(v: Value) {
    match v
    case Nil => false
    case Bool(b) => b
    case Int(i) => i != 0
    case Str(s) => s != []
    case Tuple(es) => es != []
    case List(es) => es != []
    case Dict(ps) => ps != []
    case Entity(_, _) => true
  }

  /** `str(v)`. */
  function Show(v: Value): string {
    match v
    case Str(s) => s
    case _ => Repr(v)
  }

  /** `repr(v)`: what `str` prints for the elements of a tuple, list or dict. */
  function Repr(v: Value): string {
    match v
    case Nil => "None"
    case Bool(b) => if b then "True" else "False"
    case Int(i) => Decimal.IntToStr(i)
    case Str(s) => "'" + s + "'"
    case Tuple(es) => "(" + ReprJoin(es) + (if |es| == 1 then ",)" else ")")
    case List(es) => "[" + ReprJoin(es) + "]"
    case Dict(ps) => "{" + ReprPairs(ps) + "}"
    case Entity(id, _) => "<Entity " + Decimal.IntToStr(id) + ">"
  }

  /** `', '.join(repr(e) for e in es)`. */
  function ReprJoin(es: seq<Value>): string {
    if es == [] then ""
    else if |es| == 1 then Repr(es[0])
    else Repr(es[0]) + ", " + ReprJoin(es[1..])
  }

  /** `', '.join('%r: %r' % item for item in items)`. */
  function ReprPairs(ps: seq<Item>): string {
    if ps == [] then ""
    else if |ps| == 1 then ReprItem(ps[0])
    else ReprItem(ps[0]) + ", " + ReprPairs(ps[1..])
  }

  function ReprItem(it: Item): string {
    Repr(it.key) + ": " + Repr(it.val)
  }
}

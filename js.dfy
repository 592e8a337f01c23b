/** The JavaScript values the batching engine moves around: request bodies,
    selectors, headers objects, response data and thrown errors. */
module JsValues {

  /** A JavaScript number, as far as the engine's tests can tell them apart:
      a finite value, one of the two infinities, or NaN. */
  datatype Number = Finite(r: real) | PosInfinity | NegInfinity | NaN

  /** A JavaScript value: everything JSON can carry, plus `undefined`.
      A plain object is a record from property names to values; an `Error`
      object is one such record. */
  datatype Js =
    | Undefined
    | Null
    | Bool(b: bool)
    | Num(n: Number)
    | Str(s: string)
    | Arr(elems: seq<Js>)
    | Rec(fields: map<string, Js>)

  /** JavaScript truthiness: `undefined`, `null`, `false`, `0`, `NaN` and `""`
      are falsy, everything else (every array and object included) is truthy. */
  predicate Truthy(v: Js) {
    match v
    case Undefined => false
    case Null => false
    case Bool(b) => b
    case Num(n) => n != Finite(0.0) && n != NaN
    case Str(s) => s != ""
    case Arr(_) => true
    case Rec(_) => true
  }

  /** The expression `v || null`. */
  function OrNull(v: Js): Js {
    if Truthy(v) then v else Null
  }

  /** The empty object literal `{}`. */
  const EmptyObject: Js := Rec(map[])
}

/** The slice of JavaScript's value model that the dashboard's data layer
    relies on: optional values, numbers with NaN, the `number | string |
    null | undefined` cells of a parsed CSV row, and truthiness. */
module Js {

  /** Conventional Some/None, used for JS `undefined` and for parse failures. */
  datatype Option<+T> = None | Some(value: T)

  /** A JS number. Only finite values and NaN are modelled; values are exact
      reals (no rounding to double precision, no infinities). */
  datatype Number = Finite(r: real) | NaN

  /** `a + b` on numbers: NaN is absorbing. */
  function Add(a: Number, b: Number): (c: Number)
    ensures c.NaN? <==> a.NaN? || b.NaN?
    ensures c.Finite? ==> c.r == a.r + b.r
  {
    if a.Finite? && b.Finite? then Finite(a.r + b.r) else NaN
  }

  /** Two-argument `Math.min`: NaN if either argument is NaN. */
  function Min(a: Number, b: Number): (c: Number)
    ensures c.NaN? <==> a.NaN? || b.NaN?
    ensures c.Finite? ==> c.r <= a.r && c.r <= b.r && (c.r == a.r || c.r == b.r)
  {
    if a.Finite? && b.Finite? then (if b.r < a.r then b else a) else NaN
  }

  /** Two-argument `Math.max`: NaN if either argument is NaN. */
  function Max(a: Number, b: Number): (c: Number)
    ensures c.NaN? <==> a.NaN? || b.NaN?
    ensures c.Finite? ==> a.r <= c.r && b.r <= c.r && (c.r == a.r || c.r == b.r)
  {
    if a.Finite? && b.Finite? then (if b.r > a.r then b else a) else NaN
  }

  /** JS truthiness of a number: 0 and NaN are falsy. */
  predicate NumberTruthy(n: Number)
  {
    n.Finite? && n.r != 0.0
  }

  /** A dynamically typed cell: `number | string | null | undefined`. */
  datatype Value = Num(n: Number) | Str(s: string) | Null | Undefined

  /** `typeof v === 'number'` (NaN included). */
  predicate IsNumber(v: Value)
  {
    v.Num?
  }

  /** `typeof v === 'number' && !isNaN(v)`. */
  predicate IsFiniteNumber(v: Value)
  {
    v.Num? && v.n.Finite?
  }

  /** JS truthiness of a value. */
  predicate Truthy(v: Value)
  {
    match v
    case Num(n) => NumberTruthy(n)
    case Str(s) => s != ""
    case Null => false
    case Undefined => false
  }

  /** A text cell: a string, or absent (`undefined`/`null`). */
  type Cell = Option<string>

  /** JS truthiness of a text cell: present and non-empty. */
  predicate Present(c: Cell)
  {
    c.Some? && c.value != ""
  }

  /** `String(c || d)`: the cell's text when truthy, the default otherwise. */
  function OrDefault(c: Cell, d: string): (s: string)
    ensures Present(c) ==> s == c.value
    ensures !Present(c) ==> s == d
    ensures d != "" ==> s != ""
  {
    if Present(c) then c.value else d
  }
}

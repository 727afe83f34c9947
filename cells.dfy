/**
 * Values read from spreadsheet rows (`XLSX.utils.sheet_to_json`) and from the
 * item-master JSON, with the JavaScript coercions the core applies to them:
 * truthiness, `a || b`, `String(...)`, `Number(...)`, `parseFloat(...)` and
 * `Math.floor` used as an object key.
 */
module Cells {
  import opened Text

  /**
   * A cell: absent (`undefined`), JSON `null`, a string, or a number. A number
   * carries its JavaScript string form, which `String(...)` and
   * `parseFloat(...)` read; number formatting itself is not modelled.
   */
  datatype Cell = Missing | Null | Str(s: string) | Num(v: real, text: string)

  /** JavaScript truthiness: `undefined`, `null`, `""` and `0` are falsy. */
  predicate Truthy(c: Cell) {
    match c
    case Missing => false
    case Null => false
    case Str(s) => s != []
    case Num(v, _) => v != 0.0
  }

  /** `a || b`. */
  function Or(a: Cell, b: Cell): Cell {
    if Truthy(a) then a else b
  }

  /** `String(c || "")`. */
  function StringOrEmpty(c: Cell): string {
    if !Truthy(c) then []
    else match c
      case Str(s) => s
      case Num(_, text) => text
      case _ => []
  }

  /** `Number(c)`: `Number(undefined)` is NaN, `Number(null)` is 0. */
  function ToNumber(c: Cell): Number {
    match c
    case Missing => NaN
    case Null => Real(0.0)
    case Str(s) => StringToNumber(s)
    case Num(v, _) => Real(v)
  }

  /** `parseFloat(c) || 0`; `parseFloat` of `undefined` or `null` is NaN, hence 0. */
  function ParseFloatCellOr0(c: Cell): real {
    match c
    case Missing => 0.0
    case Null => 0.0
    case Str(s) => ParseFloatOr0(s)
    case Num(_, text) => ParseFloatOr0(text)
  }

  /**
   * The property name `Math.floor(Number(x))` gives in a JavaScript object:
   * an integer, or the shared key "NaN".
   */
  datatype ItemKey = IntKey(n: int) | NaNKey

  function FloorKey(n: Number): ItemKey {
    match n
    case Real(v) => IntKey(v.Floor)
    case NaN => NaNKey
  }

  /** A finite number keys as the integer just at or below it; every NaN shares one key. */
  lemma FloorKeyBounds(n: Number)
    ensures n.Real? ==> FloorKey(n).IntKey? && FloorKey(n).n as real <= n.v < FloorKey(n).n as real + 1.0
    ensures n.NaN? <==> FloorKey(n) == NaNKey
  {
  }
}

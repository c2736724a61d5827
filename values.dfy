/**
 * The loosely typed values the dispute code handles: spreadsheet cells and
 * JSON request fields. Numbers are integers or NaN (fractions are not
 * modelled); `undefined` is `None`.
 */
module Values {
  import opened Wrappers
  import Text

  /** A JavaScript number restricted to integers, plus NaN. */
  datatype Num = Finite(value: int) | NaN

  /** A cell or JSON scalar. */
  datatype Value = Str(s: string) | Number(n: Num) | Bool(b: bool)

  /** JavaScript truthiness; `undefined` is falsy. */
  predicate Truthy(v: Option<Value>) {
    match v
    case None => false
    case Some(Str(s)) => s != ""
    case Some(Number(n)) => n.Finite? && n.value != 0
    case Some(Bool(b)) => b
  }

  /** `v || fallback`. */
  function Or(v: Option<Value>, fallback: Value): (r: Value)
    ensures Truthy(v) ==> Some(r) == v
    ensures !Truthy(v) ==> r == fallback
    ensures Truthy(Some(fallback)) ==> Truthy(Some(r))
  {
    if Truthy(v) then v.value else fallback
  }

  /** `x > k` on a JavaScript number: every comparison with NaN is false. */
  predicate Gt(x: Num, k: int) { x.Finite? && x.value > k }

  /** `x >= k` on a JavaScript number. */
  predicate Ge(x: Num, k: int) { x.Finite? && x.value >= k }

  /**
   * `Number(v)`. Converting text to a number (decimal syntax, exponents, hex,
   * surrounding blanks) belongs to the JavaScript runtime, so it is the
   * parameter `parse`; for instance `parse("abc")` is NaN.
   */
  function ToNumber(v: Value, parse: string -> Num): Num {
    match v
    case Str(s) => parse(s)
    case Number(n) => n
    case Bool(b) => Finite(if b then 1 else 0)
  }

  /** `Number(v || 0)`: every falsy value becomes 0, and only truthy ones are converted. */
  function NumberOrZero(v: Option<Value>, parse: string -> Num): (n: Num)
    ensures !Truthy(v) ==> n == Finite(0)
    ensures Truthy(v) ==> n == ToNumber(v.value, parse)
  {
    ToNumber(Or(v, Number(Finite(0))), parse)
  }

  /** `String(v)`, the conversion the schema applies to a string field. */
  function ToText(v: Value): string {
    match v
    case Str(s) => s
    case Number(Finite(i)) => Text.IntToString(i)
    case Number(NaN) => "NaN"
    case Bool(b) => if b then "true" else "false"
  }

  /** A truthy value converts to non-empty text. */
  lemma TruthyTextNonEmpty(v: Value)
    requires Truthy(Some(v))
    ensures ToText(v) != ""
  {
    if v.Number? {
      assert |Text.NatToString(if v.n.value >= 0 then v.n.value else -v.n.value)| > 0;
    }
  }
}

/**
 * The dynamically typed runtime values of the language (a Java `Object` that is
 * `null`, a `Boolean`, a `Double` or a `String`) and the host operations on doubles.
 */
module Values {
  import opened Wrappers

  /** A Java `double`. IEEE behaviour is not modelled, so the type is left abstract. */
  type Number(==)

  /**
   * The operations the source borrows from the Java library for doubles.
   * They are parameters of the model: `Double.parseDouble`, the four arithmetic
   * operators, unary negation, `Double.compareTo` and `Double.toString`.
   */
  datatype HostNumbers = HostNumbers(
    parse: string -> Number,
    add: (Number, Number) -> Number,
    sub: (Number, Number) -> Number,
    mul: (Number, Number) -> Number,
    div: (Number, Number) -> Number,
    neg: Number -> Number,
    compare: (Number, Number) -> int,
    show: Number -> string)

  /** A runtime value; `Nil` is Java's `null`. */
  datatype Value = Nil | Bool(b: bool) | Num(n: Number) | Str(s: string)

  /**
   * `value.toString()` as Java computes it; `None` is the null-dereference exception
   * that calling it on `null` raises.
   */
  function Text(v: Value, host: HostNumbers): (r: Option<string>)
    ensures r.None? <==> v.Nil?
    ensures v.Str? ==> r == Some(v.s)
  {
    match v
    case Nil => None
    case Bool(b) => Some(if b then "true" else "false")
    case Num(n) => Some(host.show(n))
    case Str(s) => Some(s)
  }
}

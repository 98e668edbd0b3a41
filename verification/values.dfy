/** The calculator's numbers, kept abstract.
    clac works on C doubles; this model does not interpret them. Every
    operation the evaluator applies to a value (the literal 0 returned on
    underflow, `strtod`, the four arithmetic operators and the `%g` used
    for rendering) is a field of an `Ops` record, so every property proved
    here holds whatever those operations compute. */
module Values {

  /** The operations on values that the evaluator uses.
      `zero` is the 0 that `pop` returns on an empty stack and the initial
      value of `hole`; `parse` stands for `strtod`; `show` for `%g`. */
  datatype Ops<!V> = Ops(
    zero: V,
    parse: string -> V,
    add: (V, V) -> V,
    sub: (V, V) -> V,
    mul: (V, V) -> V,
    div: (V, V) -> V,
    show: V -> string)

  /** The four binary operator tokens `+ - * /`. */
  datatype BinOp = Add | Sub | Mul | Div

  /** The value the dispatcher pushes for a binary operator, where `a` is
      the value popped first (the top) and `b` the value popped second.
      Addition is written `a + b` in the source, the others `b OP a`. */
  function Apply<V>(ops: Ops<V>, op: BinOp, a: V, b: V): V
  {
    match op
    case Add => ops.add(a, b)
    case Sub => ops.sub(b, a)
    case Mul => ops.mul(b, a)
    case Div => ops.div(b, a)
  }
}

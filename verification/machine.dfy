/** The evaluator's global state and the code that updates it in place:
    the 255-slot `stack` array with its fill count `top`, the last answer
    `hole`, the rendered `result`, and `push`, `pop` and `eval`. */
module Machine {
  import opened Values
  import opened Tokens
  import opened Semantics

  class Calculator<V> {
    /** The value operations the evaluator uses (`0`, `strtod`, `+ - * /`, `%g`). */
    const ops: Ops<V>
    /** `stack`: slots `0 .. top - 1` hold the values, the top last. */
    const stack: array<V>
    var top: int
    /** The last answer, pushed by `_`. */
    var hole: V
    /** The text of the stack after the last `eval`. */
    var result: string

    ghost predicate Valid()
      reads this
    {
      stack.Length == CAPACITY && 0 <= top <= CAPACITY
    }

    /** The stack as a sequence, bottom first. */
    ghost function Contents(): seq<V>
      reads this, stack
      requires Valid()
    {
      stack[..top]
    }

    /** The state at program start: an empty stack, `hole` zero and an
        empty `result`. */
    constructor (ops: Ops<V>)
      ensures Valid() && fresh(stack) && this.ops == ops
      ensures Contents() == [] && hole == ops.zero && result == ""
    {
      this.ops := ops;
      stack := new V[CAPACITY](_ => ops.zero);
      top := 0;
      hole := ops.zero;
      result := "";
    }

    /** `push`: writes slot `top` and advances `top`; nothing else
        changes. The source does not check the capacity. */
    method Push(value: V)
      requires Valid() && top < CAPACITY
      modifies this`top, stack
      ensures Valid()
      ensures top == old(top) + 1 && stack[old(top)] == value
      ensures forall i :: 0 <= i < stack.Length && i != old(top) ==> stack[i] == old(stack[i])
      ensures Contents() == old(Contents()) + [value]
    {
      stack[top] := value;
      top := top + 1;
    }

    /** `pop`: on an empty stack returns zero and leaves `top` at 0;
        otherwise returns the top value and lowers `top`. The array itself
        is never written. */
    method Pop() returns (value: V)
      requires Valid()
      modifies this`top
      ensures Valid()
      ensures old(top) == 0 ==> value == ops.zero && top == 0
      ensures old(top) > 0 ==> value == stack[old(top) - 1] && top == old(top) - 1
      ensures value == FromTop(ops.zero, old(Contents()), 1)
      ensures Contents() == Below(old(Contents()), 1)
    {
      if top == 0 {
        return ops.zero;
      }
      top := top - 1;
      value := stack[top];
    }

    /** One pass of the loop body of `eval`: the branch chosen by the
        token's class, done with `push` and `pop`. */
    method Dispatch(tok: string)
      requires Valid()
      requires |Step(ops, hole, Contents(), tok)| <= CAPACITY
      modifies this`top, stack
      ensures Valid()
      ensures Contents() == Step(ops, hole, old(Contents()), tok)
    {
      ghost var s := Contents();
      BelowBelow(ops.zero, s);
      match Classify(tok) {
        case Number(text) =>
          Push(ops.parse(text));
        case Binary(op) =>
          var a := Pop();
          var b := Pop();
          Push(Apply(ops, op, a, b));
        case Recall =>
          Push(hole);
        case Swap =>
          var a := Pop();
          var b := Pop();
          Push(a);
          Push(b);
        case Dup =>
          var a := Pop();
          Push(a);
          Push(a);
        case Ignore =>
      }
    }

    /** `eval`: resets the stack, dispatches every token in order and then
        renders the stack into `result`. What it leaves depends only on the
        tokens and `hole`, which it never assigns. */
    method Eval(tokens: seq<string>)
      requires Valid()
      requires Fits(ops, hole, tokens)
      modifies this`top, this`result, stack
      ensures Valid() && hole == old(hole)
      ensures Contents() == Run(ops, hole, tokens)
      ensures result == Render(ops.show, Contents())
    {
      top := 0;
      var i := 0;
      while i < |tokens|
        invariant 0 <= i <= |tokens|
        invariant Valid()
        invariant Contents() == Run(ops, hole, tokens[..i])
      {
        assert tokens[..i + 1][..i] == tokens[..i];
        assert |Run(ops, hole, tokens[..i + 1])| <= CAPACITY;
        Dispatch(tokens[i]);
        i := i + 1;
      }
      assert tokens[..i] == tokens;

      result := "";
      i := 0;
      while i < top
        invariant 0 <= i <= top
        invariant Valid() && Contents() == Run(ops, hole, tokens)
        invariant result == Render(ops.show, stack[..i])
      {
        assert stack[..i + 1][..i] == stack[..i];
        result := result + " " + ops.show(stack[i]);
        i := i + 1;
      }
    }
  }

  /** Evaluating the same input twice gives the same stack and the same
      text, whatever the stack held before. */
  method EvalTwice<V>(c: Calculator<V>, tokens: seq<string>) returns (first: string, second: string)
    requires c.Valid() && Fits(c.ops, c.hole, tokens)
    modifies c`top, c`result, c.stack
    ensures first == second == Render(c.ops.show, Run(c.ops, c.hole, tokens))
  {
    c.Eval(tokens);
    first := c.result;
    c.Eval(tokens);
    second := c.result;
  }
}

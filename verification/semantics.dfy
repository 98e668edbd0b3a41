/** What `eval` computes, stated on values.
    A stack is a sequence read bottom to top: its last element is the top.
    A missing operand reads as the zero that `pop` returns on underflow. */
module Semantics {
  import opened Values
  import opened Tokens

  /** Number of slots in the evaluator's stack array. */
  const CAPACITY: nat := 0xFF

  /** The `k`-th value from the top (the top is `k == 1`), or `zero` when
      the stack is not that deep. */
  function FromTop<V>(zero: V, s: seq<V>, k: nat): V
    requires k >= 1
  {
    if k <= |s| then s[|s| - k] else zero
  }

  /** The stack without its top `k` values (empty when it has fewer). */
  function Below<V>(s: seq<V>, k: nat): seq<V>
  {
    if k <= |s| then s[..|s| - k] else []
  }

  /** Popping twice leaves the stack without its top two values, and the
      second value popped is the one second from the top. */
  lemma BelowBelow<V>(zero: V, s: seq<V>)
    ensures Below(Below(s, 1), 1) == Below(s, 2)
    ensures FromTop(zero, Below(s, 1), 1) == FromTop(zero, s, 2)
  {
  }

  /** The stack after the dispatcher has handled one token, with `hole`
      the last answer that `_` recalls. */
  function Step<V>(ops: Ops<V>, hole: V, s: seq<V>, tok: string): (r: seq<V>)
    ensures |r| <= |s| + 2
    ensures |s| > 0 ==> |r| <= |s| + 1
  {
    match Classify(tok)
    case Number(text) => s + [ops.parse(text)]
    case Binary(op) =>
      Below(s, 2) + [Apply(ops, op, FromTop(ops.zero, s, 1), FromTop(ops.zero, s, 2))]
    case Recall => s + [hole]
    case Swap => Below(s, 2) + [FromTop(ops.zero, s, 1), FromTop(ops.zero, s, 2)]
    case Dup => Below(s, 1) + [FromTop(ops.zero, s, 1), FromTop(ops.zero, s, 1)]
    case Ignore => s
  }

  /** The stack after handling `tokens` in order, starting from `s`. */
  function Exec<V>(ops: Ops<V>, hole: V, s: seq<V>, tokens: seq<string>): (r: seq<V>)
    ensures |r| <= |s| + |tokens| + 1
    decreases |tokens|
  {
    if tokens == [] then s
    else Step(ops, hole, Exec(ops, hole, s, tokens[..|tokens| - 1]), tokens[|tokens| - 1])
  }

  /** The stack `eval` leaves: it always starts from the empty stack. */
  function Run<V>(ops: Ops<V>, hole: V, tokens: seq<string>): seq<V>
  {
    Exec(ops, hole, [], tokens)
  }

  /** No prefix of the run needs more than the `CAPACITY` slots of the
      stack array (`push` does not check, so beyond that it would write
      out of bounds). */
  ghost predicate Fits<V>(ops: Ops<V>, hole: V, tokens: seq<string>)
  {
    forall k :: 0 <= k <= |tokens| ==> |Run(ops, hole, tokens[..k])| <= CAPACITY
  }

  /** The text `eval` leaves in `result`: one field per value, a space
      followed by the value's rendering, from the bottom up. */
  function Render<V>(show: V -> string, s: seq<V>): string
  {
    if s == [] then "" else Render(show, s[..|s| - 1]) + " " + show(s[|s| - 1])
  }

  // ---------------------------------------------------------------------
  // One token

  /** The four operators pop the top `a`, then `b`, and push `a + b`,
      `b - a`, `b * a` or `b / a`: "second from top OP top". The values
      below the two operands are untouched and the depth falls by one. */
  lemma OperandOrder<V>(ops: Ops<V>, hole: V, s: seq<V>, b: V, a: V)
    ensures Step(ops, hole, s + [b, a], "+") == s + [ops.add(a, b)]
    ensures Step(ops, hole, s + [b, a], "-") == s + [ops.sub(b, a)]
    ensures Step(ops, hole, s + [b, a], "*") == s + [ops.mul(b, a)]
    ensures Step(ops, hole, s + [b, a], "/") == s + [ops.div(b, a)]
  {
    assert CStr("+") == "+" && CStr("-") == "-" && CStr("*") == "*" && CStr("/") == "/";
    assert (s + [b, a])[..|s|] == s;
  }

  /** On a stack of depth two or more a binary operator replaces the two
      top values with one and leaves the rest as it was. */
  lemma BinaryOnDeepStack<V>(ops: Ops<V>, hole: V, s: seq<V>, tok: string)
    requires Classify(tok).Binary?
    requires |s| >= 2
    ensures |Step(ops, hole, s, tok)| == |s| - 1
    ensures Step(ops, hole, s, tok)[..|s| - 2] == s[..|s| - 2]
    ensures Step(ops, hole, s, tok)[|s| - 2] == Apply(ops, Classify(tok).op, s[|s| - 1], s[|s| - 2])
  {
  }

  /** Underflow is silent: a missing operand is zero. A binary operator on
      a stack of depth 0 or 1 leaves exactly one value; `dup` on the empty
      stack gives two zeros; `swap` on `[x]` gives `[x, 0]`. */
  lemma SilentUnderflow<V>(ops: Ops<V>, hole: V, x: V, tok: string)
    ensures Classify(tok).Binary? ==>
      Step(ops, hole, [], tok) == [Apply(ops, Classify(tok).op, ops.zero, ops.zero)] &&
      Step(ops, hole, [x], tok) == [Apply(ops, Classify(tok).op, x, ops.zero)]
    ensures Classify(tok) == Dup ==> Step(ops, hole, [], tok) == [ops.zero, ops.zero]
    ensures Classify(tok) == Swap ==>
      Step(ops, hole, [x], tok) == [x, ops.zero] &&
      Step(ops, hole, [], tok) == [ops.zero, ops.zero]
  {
  }

  /** `swap` exchanges the two top values and `dup` copies the top; the
      values below stay as they were. */
  lemma SwapAndDup<V>(ops: Ops<V>, hole: V, s: seq<V>, x: V, y: V, tok: string)
    ensures Classify(tok) == Swap ==> Step(ops, hole, s + [x, y], tok) == s + [y, x]
    ensures Classify(tok) == Dup ==> Step(ops, hole, s + [x], tok) == s + [x, x]
  {
    assert (s + [x, y])[..|s|] == s;
    assert (s + [x])[..|s|] == s;
  }

  /** A number is pushed as parsed, `_` pushes `hole`, and an ignored
      token leaves the stack as it was. */
  lemma PushesAndIgnores<V>(ops: Ops<V>, hole: V, s: seq<V>, tok: string)
    ensures Classify(tok).Number? ==> Step(ops, hole, s, tok) == s + [ops.parse(CStr(tok))]
    ensures Classify(tok) == Recall ==> Step(ops, hole, s, tok) == s + [hole]
    ensures Classify(tok) == Ignore ==> Step(ops, hole, s, tok) == s
  {
  }

  // ---------------------------------------------------------------------
  // A token list

  /** Running `t1` and then `t2` is running `t1 + t2`. */
  lemma {:induction false} ExecAppend<V>(ops: Ops<V>, hole: V, s: seq<V>, t1: seq<string>, t2: seq<string>)
    ensures Exec(ops, hole, s, t1 + t2) == Exec(ops, hole, Exec(ops, hole, s, t1), t2)
    decreases |t2|
  {
    if t2 == [] {
      assert t1 + t2 == t1;
    } else {
      var n := |t2| - 1;
      assert (t1 + t2)[..|t1 + t2| - 1] == t1 + t2[..n];
      assert (t1 + t2)[|t1 + t2| - 1] == t2[n];
      ExecAppend(ops, hole, s, t1, t2[..n]);
    }
  }

  /** An ignored token can be dropped from anywhere in the input without
      changing what `eval` leaves. */
  lemma {:induction false} IgnoredTokenIsInvisible<V>(ops: Ops<V>, hole: V, t1: seq<string>, x: string, t2: seq<string>)
    requires Classify(x) == Ignore
    ensures Run(ops, hole, t1 + [x] + t2) == Run(ops, hole, t1 + t2)
  {
    ExecAppend(ops, hole, [], t1 + [x], t2);
    ExecAppend(ops, hole, [], t1, [x]);
    ExecAppend(ops, hole, [], t1, t2);
    var s1 := Exec(ops, hole, [], t1);
    assert Exec(ops, hole, s1, [x]) == Step(ops, hole, Exec(ops, hole, s1, []), x);
  }

  /** A token raises the depth by at most one once the stack is not empty
      (by two on the empty stack), so an input of at most 254 tokens can
      never overflow the 255 slots. */
  lemma ShortInputFits<V>(ops: Ops<V>, hole: V, tokens: seq<string>)
    requires |tokens| < CAPACITY
    ensures Fits(ops, hole, tokens)
  {
  }

  /** Digit-led tokens each push one value. */
  lemma {:induction false} NumbersPushOneEach<V>(ops: Ops<V>, hole: V, s: seq<V>, tokens: seq<string>)
    requires forall i :: 0 <= i < |tokens| ==> Classify(tokens[i]).Number?
    ensures |Exec(ops, hole, s, tokens)| == |s| + |tokens|
    decreases |tokens|
  {
    if tokens != [] {
      NumbersPushOneEach(ops, hole, s, tokens[..|tokens| - 1]);
    }
  }

  /** The bound of `ShortInputFits` is the best possible: `dup` followed by
      254 numbers needs a 256th slot. */
  lemma {:induction false} DepthBoundIsTight<V>(ops: Ops<V>, hole: V, tokens: seq<string>)
    requires |tokens| == CAPACITY
    requires Classify(tokens[0]) == Dup
    requires forall i :: 1 <= i < |tokens| ==> Classify(tokens[i]).Number?
    ensures |Run(ops, hole, tokens)| == CAPACITY + 1
    ensures !Fits(ops, hole, tokens)
  {
    var first := Exec(ops, hole, [], [tokens[0]]);
    assert first == [ops.zero, ops.zero] by {
      var one := [tokens[0]];
      assert one[..|one| - 1] == [] && one[|one| - 1] == tokens[0];
      assert Exec(ops, hole, [], []) == [];
    }
    NumbersPushOneEach(ops, hole, first, tokens[1..]);
    ExecAppend(ops, hole, [], [tokens[0]], tokens[1..]);
    assert [tokens[0]] + tokens[1..] == tokens;
    assert tokens[..|tokens|] == tokens;
  }

  // ---------------------------------------------------------------------
  // Rendering

  /** Rendering a stack is rendering its two halves one after the other;
      a single value renders as one space-prefixed field. */
  lemma {:induction false} RenderConcat<V>(show: V -> string, s: seq<V>, t: seq<V>)
    ensures Render(show, s + t) == Render(show, s) + Render(show, t)
    ensures Render(show, t) == "" <==> t == []
    decreases |t|
  {
    if t == [] {
      assert s + t == s;
    } else {
      var n := |t| - 1;
      assert (s + t)[..|s + t| - 1] == s + t[..n];
      RenderConcat(show, s, t[..n]);
    }
  }
}

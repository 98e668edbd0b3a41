# clac evaluation engine in Dafny

This project models the evaluation engine of `clac`, an RPN calculator. The engine is in `clac.c`:

- a global stack of 255 doubles (`stack`) with its fill count `top`;
- the last answer `hole`, which the `_` token recalls;
- the `push` and `pop` primitives;
- `eval`, which empties the stack and dispatches each token in order. It then renders the stack, bottom first, into the `result` string: one space-prefixed `%g` field per value.

The values are kept abstract. The model is generic in the value type `V`. A `Values.Ops` record carries:

- the zero that `pop` returns on underflow;
- the number parser (`strtod`);
- the four arithmetic operations;
- the renderer (`%g`).

So every property holds whatever those compute. The properties are about the shape of the stack and the order of operands, not about floating point.

Layout:

- `values.dfy` (module `Values`): the `Ops` record, the operator tokens `+ - * /`, and `Apply`, which fixes the operand order.
- `tokens.dfy` (module `Tokens`): how `eval` recognises a token.
  - A token is read as a C string, up to its first NUL (`CStr`).
  - It is a number when its first character is a digit.
  - `+ - * / _` must match exactly (`strcmp`).
  - `swap` and `dup` match in any ASCII case (`strcasecmp`).
  - Anything else is ignored.
- `semantics.dfy` (module `Semantics`): what `eval` computes, as functions on sequences (bottom first). `Step` handles one token, `Exec`/`Run` handle a token list, and `Render` gives the text. It also holds the lemmas about these functions.
- `machine.dfy` (module `Machine`): the global state as the class `Calculator`. It has the `stack` array, `top`, `hole` and `result`. Its methods `Push`, `Pop`, `Dispatch` (one pass of the dispatch loop) and `Eval` update that state in place and are proved against `Step`, `Run` and `Render`.

`push` has no capacity check: a 256th value would be written past the end of `stack`. So `Eval` requires `Fits`: no prefix of the input may need more than 255 slots. `ShortInputFits` shows that this holds for every input of at most 254 tokens. `DepthBoundIsTight` shows that 255 tokens can already overflow.

Behaviour of `clac.c` worth knowing:

- This version has no stash stack, no `roll`, no user-defined words, no `%`/`^` and no named maths builtins.
- A binary operator on a stack with fewer than two values is not skipped. The missing operands read as 0 and the result is pushed.
- `dup` on an empty stack pushes two zeros. `swap` on a short stack is not a no-op: on `[x]` it gives `[x, 0]`.
- `push` on a full stack is not checked or diagnosed at all.
- A token that is not digit-led and not a known word is always ignored. No NaN is pushed for symbol-like garbage. Any digit-led token is pushed as whatever `strtod` makes of it, even when the parse is partial.

## Model

| member | source | states |
|---|---|---|
| `Tokens.CStr` | clac.c:69-97 | The text the C comparisons see is the longest NUL-free prefix of the token: a prefix, containing no NUL, and followed by a NUL whenever it is shorter than the token. |
| `Tokens.SymbolsMatchExactly` | clac.c:71-88 | A token is `+`, `-`, `*`, `/` or `_` exactly when its C string is that one character: `strcmp` has no case variants and no padding. |
| `Tokens.WordsIgnoreCase` | clac.c:89-98 | A token that equals a `swap` or `dup` token up to ASCII case is dispatched the same way (`strcasecmp`). |
| `Tokens.IgnoredExamples` | clac.c:68-98 | `-3`, `.5`, the empty token and the unknown word `drop` are ignored. |
| `Tokens.WordsMatch` | clac.c:89-98 | A token is `swap` (or `dup`) exactly when its C string equals that word up to ASCII case: both directions of `strcasecmp(...) == 0`. |
| `Tokens.NumberIff` | clac.c:69-70 | A token is a number exactly when its C string starts with a digit, and then its whole C string is what the parser gets. |
| `Tokens.RecognisedExamples` | clac.c:69-98 | Examples: `SwAp` is `swap`, `DUP` is `dup`, and `3.5e2` is the number with text `3.5e2`. |
| `Semantics.Step` | clac.c:68-98 | One token raises the depth by at most two, and by at most one when the stack is not empty. |
| `Semantics.Exec` | clac.c:68-99 | After a token list the depth is at most the starting depth plus the number of tokens plus one. |
| `Semantics.OperandOrder` | clac.c:71-86 | On `s + [b, a]` the operators give `s + [a+b]`, `s + [b-a]`, `s + [b*a]` and `s + [b/a]`: second from top OP top, with the values below unchanged. |
| `Semantics.BinaryOnDeepStack` | clac.c:71-86 | With depth at least two, a binary operator lowers the depth by exactly one. It leaves every value below the two operands where it was and puts the result in their place. |
| `Semantics.SilentUnderflow` | clac.c:52-98 | Missing operands read as zero. A binary operator on depth 0 or 1 leaves one value, `dup` on the empty stack gives `[0, 0]`, and `swap` gives `[x, 0]` on `[x]` and `[0, 0]` on the empty stack. |
| `Semantics.SwapAndDup` | clac.c:89-98 | `swap` turns `s + [x, y]` into `s + [y, x]`, and `dup` turns `s + [x]` into `s + [x, x]`. |
| `Semantics.PushesAndIgnores` | clac.c:69-98 | A digit-led token pushes the parse of its C string. `_` pushes `hole`. An ignored token leaves the stack exactly as it was. |
| `Semantics.ExecAppend` | clac.c:68-99 | Dispatching is sequential: running `t1 + t2` is running `t1` and then `t2` from where it left the stack. |
| `Semantics.IgnoredTokenIsInvisible` | clac.c:68-99 | Deleting an ignored token from anywhere in the input does not change the stack `eval` leaves. |
| `Semantics.ShortInputFits` | clac.c:41-99 | Every input of at most 254 tokens stays within the 255 slots of `stack`. |
| `Semantics.NumbersPushOneEach` | clac.c:69-70 | A run of digit-led tokens raises the depth by exactly its length. |
| `Semantics.DepthBoundIsTight` | clac.c:41-99 | `dup` followed by 254 numbers leaves 256 values, so it does not fit the array. |
| `Semantics.RenderConcat` | clac.c:104-106 | The rendering of a stack is the concatenation of the renderings of its parts in order, and it is empty only for the empty stack. Together with the definition, this gives one space-prefixed field per value, oldest first. |
| `Machine.Calculator.constructor` | clac.c:41-46 | The initial state: the zeroed globals (empty stack, `hole` zero, a fresh 255-slot array) and the empty `result` that `main` sets with `result = sdsempty()` at clac.c:118. |
| `Machine.Calculator.Push` | clac.c:48-50 | `push` writes slot `top` and increments `top`; every other slot keeps its value; the contents gain the value on top. It requires `top < 255` because the source does not check. |
| `Machine.Calculator.Pop` | clac.c:52-58 | On an empty stack `pop` returns zero and `top` stays 0. Otherwise it returns `stack[top-1]` and decrements `top`. The array is not written. |
| `Machine.Calculator.Dispatch` | clac.c:68-98 | One pass of the loop, done with `push` and `pop`, leaves exactly the stack `Step` describes. |
| `Machine.Calculator.Eval` | clac.c:60-107 | `eval` leaves exactly `Run(tokens)` on the stack, starting from empty whatever the stack held before. `result` is that stack rendered, and `hole` is unchanged. |
| `Machine.EvalTwice` | clac.c:60-107 | Evaluating the same input twice gives the same text both times. |

## Left out

- `main`, the REPL loop and the linenoise line editor (clac.c:115-135) are interactive I/O. This includes the update `hole = stack[top-1]` at clac.c:124. That update reads before the start of `stack` when a non-empty line leaves the stack empty. The model takes `hole` as given state.
- `hints` (clac.c:109-113) only sets a colour and calls `eval`; `Eval` covers what it returns.
- `sdssplitargs` and the sds string library (clac.c:64, clac.c:101-102) are not part of this model. `Eval` takes the token sequence as input, and freeing it is not modelled.
- `strtod` and `%g` are the `parse` and `show` fields of `Values.Ops`. Their results are not modelled.
- IEEE-754 arithmetic, including division by zero, is the `add`/`sub`/`mul`/`div` fields of `Values.Ops` and is not interpreted.
- Tokens are sequences of characters rather than bytes, and `isdigit`/`tolower` are the C-locale ASCII versions. The undefined behaviour of `isdigit` on a negative `char` is not modelled.
- Machine.Calculator.Eval: does not model what happens when the input overflows the 255-slot array, because `push` then writes out of bounds, which C leaves undefined. `Fits` is required instead.

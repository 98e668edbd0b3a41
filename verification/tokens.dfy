/** How the dispatcher in `eval` recognises a token.
    The tokens reach `eval` as C strings, so every comparison
    (`isdigit` on the first character, `strcmp`, `strcasecmp`) only sees
    the characters before the first NUL. */
module Tokens {
  import opened Values

  /** What the dispatcher does with one token. `Number` carries the text
      handed to the number parser. */
  datatype Command =
    | Number(text: string)
    | Binary(op: BinOp)
    | Recall
    | Swap
    | Dup
    | Ignore

  /** The C string a token denotes: its characters up to the first NUL. */
  function CStr(t: string): (c: string)
    ensures |c| <= |t| && c == t[..|c|]
    ensures forall i :: 0 <= i < |c| ==> c[i] != '\0'
    ensures |c| < |t| ==> t[|c|] == '\0'
  {
    if t == [] || t[0] == '\0' then [] else [t[0]] + CStr(t[1..])
  }

  /** `isdigit` in the C locale. */
  predicate IsDigit(ch: char)
  {
    '0' <= ch <= '9'
  }

  /** `tolower` in the C locale: only ASCII capitals change. */
  function Lower(ch: char): char
  {
    if 'A' <= ch <= 'Z' then (ch as int + 32) as char else ch
  }

  /** A string with every character passed through `Lower`. */
  function Fold(s: string): string
  {
    seq(|s|, i requires 0 <= i < |s| => Lower(s[i]))
  }

  /** `strcasecmp(a, b) == 0`: the same length and the same characters up
      to ASCII case. */
  predicate SameIgnoringCase(a: string, b: string)
  {
    Fold(a) == Fold(b)
  }

  /** The dispatch chain of `eval`, in the order its branches are tried:
      a digit-led token is a number; `+ - * / _` must match exactly;
      `swap` and `dup` match in any case; everything else is ignored. */
  function Classify(tok: string): Command
  {
    var c := CStr(tok);
    if |c| > 0 && IsDigit(c[0]) then Number(c)
    else if c == "+" then Binary(Add)
    else if c == "-" then Binary(Sub)
    else if c == "*" then Binary(Mul)
    else if c == "/" then Binary(Div)
    else if c == "_" then Recall
    else if SameIgnoringCase(c, "swap") then Swap
    else if SameIgnoringCase(c, "dup") then Dup
    else Ignore
  }

  /** The operator symbols and `_` are matched exactly: one character,
      no case variants, nothing after it before the NUL. */
  lemma SymbolsMatchExactly(tok: string)
    ensures Classify(tok) == Binary(Add) <==> CStr(tok) == "+"
    ensures Classify(tok) == Binary(Sub) <==> CStr(tok) == "-"
    ensures Classify(tok) == Binary(Mul) <==> CStr(tok) == "*"
    ensures Classify(tok) == Binary(Div) <==> CStr(tok) == "/"
    ensures Classify(tok) == Recall <==> CStr(tok) == "_"
  {
  }

  /** `swap` and `dup` are recognised whatever the case of their letters:
      a token that differs from one of them only in case means the same. */
  lemma {:induction false} WordsIgnoreCase(t: string, u: string)
    requires Classify(t) == Swap || Classify(t) == Dup
    requires SameIgnoringCase(CStr(t), CStr(u))
    ensures Classify(u) == Classify(t)
  {
    var c := CStr(u);
    var w := if Classify(t) == Swap then "swap" else "dup";
    assert Fold(c) == Fold(w);
    assert |c| == |w| && |c| > 0;
    assert Lower(c[0]) == Fold(c)[0] == w[0];
    assert !IsDigit(c[0]);
    assert c != "+" && c != "-" && c != "*" && c != "/" && c != "_";
    if Classify(t) == Dup {
      assert !SameIgnoringCase(c, "swap");
    }
  }

  /** A token is dispatched as `swap` or `dup` exactly when its C string
      equals that word up to ASCII case. */
  lemma WordsMatch(t: string)
    ensures Classify(t) == Swap <==> SameIgnoringCase(CStr(t), "swap")
    ensures Classify(t) == Dup <==> SameIgnoringCase(CStr(t), "dup")
  {
    var c := CStr(t);
    if SameIgnoringCase(c, "swap") || SameIgnoringCase(c, "dup") {
      assert |c| > 0 && Lower(c[0]) == Fold(c)[0];
      assert c != "+" && c != "-" && c != "*" && c != "/" && c != "_";
    }
    assert Fold("swap") != Fold("dup");
  }

  /** A token is a number exactly when its C string starts with a digit,
      and then the whole C string goes to the number parser. */
  lemma NumberIff(t: string)
    ensures Classify(t).Number? <==> |CStr(t)| > 0 && IsDigit(CStr(t)[0])
    ensures Classify(t).Number? ==> Classify(t) == Number(CStr(t))
  {
  }

  /** Tokens that are neither digit-led nor one of the listed words are
      ignored: a negative literal, a literal with a leading point, the
      empty token, and an unknown word. */
  lemma IgnoredExamples()
    ensures Classify("-3") == Ignore
    ensures Classify(".5") == Ignore
    ensures Classify("") == Ignore
    ensures Classify("drop") == Ignore
  {
    assert CStr("-3") == "-3" && Fold("-3")[1] == '3';
    assert CStr(".5") == ".5" && |Fold(".5")| == 2;
    assert CStr("drop") == "drop" && Fold("drop")[0] == 'd' && Fold("drop")[1] == 'r';
  }

  /** Examples: words in mixed case, and a digit-led token with an
      exponent. */
  lemma RecognisedExamples()
    ensures Classify("SwAp") == Swap
    ensures Classify("DUP") == Dup
    ensures Classify("3.5e2") == Number("3.5e2")
  {
    assert CStr("SwAp") == "SwAp" && Fold("SwAp") == "swap";
    assert CStr("DUP") == "DUP" && Fold("DUP") == "dup" && |Fold("swap")| == 4;
    assert CStr("3.5e2") == "3.5e2";
  }
}

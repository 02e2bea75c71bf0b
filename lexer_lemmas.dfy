/** What the lexer promises: when it succeeds, which characters it keeps, and
    the token sequences it gives for one binary operation. */
module LexerProperties {
  import opened Wrappers
  import opened Tokens
  import opened Lexer

  predicate AllRecognized(s: string) {
    forall k :: 0 <= k < |s| ==> Recognized(s[k])
  }

  /** Lexing fails exactly on an unrecognized character or on a leading `*`
      or `/` (the only moment the token buffer is empty). */
  lemma {:induction false} LexedOkIff(s: string)
    ensures Lexed(s).Ok? <==> AllRecognized(s) && (|s| > 0 ==> !IsMultiplicative(s[0]))
  {
    LexFromOkIff(s, 0, LexState([], false));
  }

  lemma {:induction false} LexFromOkIff(s: string, i: nat, st: LexState)
    requires i <= |s| && WellFormed(st.tokens)
    ensures LexFrom(s, i, st).Ok? <==>
      (forall k :: i <= k < |s| ==> Recognized(s[k])) &&
      (i < |s| && |st.tokens| == 0 ==> !IsMultiplicative(s[i]))
    decreases |s| - i
  {
    if i < |s| {
      match Step(s, i, st)
      case Err(_) =>
      case Ok((next, j)) =>
        LexFromOkIff(s, j, next);
        assert forall k :: i <= k < j ==> Recognized(s[k]) by {
          if !IsDigit(s[i]) { assert j == i + 1; }
        }
    }
  }

  /** The concatenated texts of a token sequence. */
  function Text(ts: seq<Token>): string {
    if ts == [] then [] else ts[0].text + Text(ts[1..])
  }

  /** A string with its parentheses removed. */
  function DropParens(s: string): string {
    if s == [] then []
    else (if s[0] == '(' || s[0] == ')' then [] else [s[0]]) + DropParens(s[1..])
  }

  lemma {:induction false} DropParensAppend(x: string, y: string)
    ensures DropParens(x + y) == DropParens(x) + DropParens(y)
    decreases |x|
  {
    if x == [] {
      assert x + y == y;
    } else {
      assert (x + y)[0] == x[0] && (x + y)[1..] == x[1..] + y;
      DropParensAppend(x[1..], y);
    }
  }

  lemma {:induction false} DropParensDigits(x: string)
    requires forall k :: 0 <= k < |x| ==> IsDigit(x[k])
    ensures DropParens(x) == x
    decreases |x|
  {
    if x != [] {
      DropParensDigits(x[1..]);
    }
  }

  lemma {:induction false} TextAppend(xs: seq<Token>, ys: seq<Token>)
    ensures Text(xs + ys) == Text(xs) + Text(ys)
    decreases |xs|
  {
    if xs == [] {
      assert xs + ys == ys;
    } else {
      assert (xs + ys)[1..] == xs[1..] + ys;
      TextAppend(xs[1..], ys);
    }
  }

  lemma TextSingle(t: Token)
    ensures Text([t]) == t.text
  {
    assert [t][1..] == [];
  }

  lemma DropParensSingleParen(c: char)
    requires c == '(' || c == ')'
    ensures DropParens([c]) == []
  {
    assert [c][1..] == [];
  }

  /** Inserting `(` before the last token changes no character but parentheses. */
  lemma OperatorKeepsCharacters(p: seq<Token>, last: Token, op: Token)
    ensures DropParens(Text(p + [LParenToken, last, op]))
      == DropParens(Text(p + [last])) + DropParens(op.text)
  {
    var x, l := Text(p), last.text;
    TextAppend(p, [LParenToken, last, op]);
    TextAppend(p, [last]);
    TextSingle(op);
    TextSingle(last);
    assert [last, op][1..] == [op];
    assert [LParenToken, last, op][1..] == [last, op];
    assert Text([LParenToken, last, op]) == "(" + l + op.text;
    DropParensSingleParen('(');
    DropParensAppend(x, "(" + l + op.text);
    DropParensAppend("(", l + op.text);
    DropParensAppend(l, op.text);
    DropParensAppend(x, l);
    DropParensAppend(x + l, op.text);
  }

  /** No step of the lexer loses, duplicates or reorders a character other
      than a parenthesis: it only adds synthetic parentheses. */
  lemma StepKeepsCharacters(s: string, i: nat, st: LexState)
    requires i < |s| && WellFormed(st.tokens) && Step(s, i, st).Ok?
    ensures var (next, j) := Step(s, i, st).value;
      DropParens(Text(next.tokens)) == DropParens(Text(st.tokens)) + DropParens(s[i..j])
  {
    var ts := st.tokens;
    var (next, j) := Step(s, i, st).value;
    if IsPunctuation(s[i]) {
      StepOnPunctuation(s, i, st);
      assert s[i..j] == PunctuationToken(s[i]).text;
      TextAppend(ts, [PunctuationToken(s[i])]);
      TextSingle(PunctuationToken(s[i]));
      DropParensAppend(Text(ts), s[i..j]);
    } else if IsMultiplicative(s[i]) {
      StepOnOperator(s, i, st);
      var n := |ts|;
      var p, last, op := ts[..n - 1], ts[n - 1], MultiplicativeToken(s[i]);
      assert ts == p + [last];
      assert next.tokens == p + [LParenToken, last, op];
      assert s[i..j] == op.text;
      OperatorKeepsCharacters(p, last, op);
    } else {
      StepOnDigit(s, i, st);
      DigitsKeepCharacters(ts, s[i..j], st.addParen);
    }
  }

  lemma DigitsKeepCharacters(ts: seq<Token>, run: string, addParen: bool)
    requires forall k :: 0 <= k < |run| ==> IsDigit(run[k])
    ensures DropParens(Text(ts + [IntegerToken(run)] + (if addParen then [RParenToken] else [])))
      == DropParens(Text(ts)) + DropParens(run)
  {
    var withInteger := ts + [IntegerToken(run)];
    TextAppend(ts, [IntegerToken(run)]);
    TextSingle(IntegerToken(run));
    DropParensDigits(run);
    DropParensAppend(Text(ts), run);
    if addParen {
      TextAppend(withInteger, [RParenToken]);
      TextSingle(RParenToken);
      DropParensSingleParen(')');
      DropParensAppend(Text(withInteger), ")");
    } else {
      assert withInteger + [] == withInteger;
    }
  }

  /** One unfolding of the lexing loop. */
  lemma LexFromStep(s: string, i: nat, st: LexState)
    requires i < |s| && WellFormed(st.tokens)
    ensures Step(s, i, st).Err? ==> LexFrom(s, i, st) == Err(Step(s, i, st).error)
    ensures Step(s, i, st).Ok? ==>
      LexFrom(s, i, st) == LexFrom(s, Step(s, i, st).value.1, Step(s, i, st).value.0)
  {
  }

  lemma {:induction false} LexFromKeepsCharacters(s: string, i: nat, st: LexState)
    requires i <= |s| && WellFormed(st.tokens)
    ensures LexFrom(s, i, st).Ok? ==>
      DropParens(Text(LexFrom(s, i, st).value)) == DropParens(Text(st.tokens)) + DropParens(s[i..])
    decreases |s| - i
  {
    if i == |s| {
      assert s[i..] == [];
    } else {
      var r := Step(s, i, st);
      LexFromStep(s, i, st);
      if r.Ok? {
        var next, j := r.value.0, r.value.1;
        StepKeepsCharacters(s, i, st);
        LexFromKeepsCharacters(s, j, next);
        assert s[i..] == s[i..j] + s[j..];
        DropParensAppend(s[i..j], s[j..]);
      }
    }
  }

  /** End to end: apart from parentheses, the token texts spell the input. */
  lemma LexedKeepsCharacters(s: string)
    ensures Lexed(s).Ok? ==> DropParens(Text(Lexed(s).value)) == DropParens(s)
  {
    LexFromKeepsCharacters(s, 0, LexState([], false));
    assert s[0..] == s;
  }

  /** Scanning a maximal digit run from `i` to `j` in one step. */
  lemma LexAfterDigits(s: string, i: nat, j: nat, st: LexState, out: LexState)
    requires i < j <= |s| && WellFormed(st.tokens)
    requires DigitsBetween(s, i, j)
    requires j == |s| || !IsDigit(s[j])
    requires out == LexState(st.tokens + [IntegerToken(s[i..j])]
                               + (if st.addParen then [RParenToken] else []), false)
    ensures WellFormed(out.tokens)
    ensures LexFrom(s, i, st) == LexFrom(s, j, out)
  {
    StepOnDigit(s, i, st);
  }

  lemma LexAfterPunctuation(s: string, i: nat, st: LexState, out: LexState)
    requires i < |s| && WellFormed(st.tokens) && IsPunctuation(s[i])
    requires out == st.(tokens := st.tokens + [PunctuationToken(s[i])])
    ensures WellFormed(out.tokens)
    ensures LexFrom(s, i, st) == LexFrom(s, i + 1, out)
  {
    StepOnPunctuation(s, i, st);
  }

  lemma LexAfterOperator(s: string, i: nat, st: LexState, out: LexState)
    requires i < |s| && WellFormed(st.tokens) && IsMultiplicative(s[i]) && |st.tokens| > 0
    requires out == LexState(InsertBeforeLast(st.tokens, LParenToken) + [MultiplicativeToken(s[i])], true)
    ensures WellFormed(out.tokens)
    ensures LexFrom(s, i, st) == LexFrom(s, i + 1, out)
  {
    StepOnOperator(s, i, st);
  }

  lemma LexAtEnd(s: string, st: LexState)
    requires WellFormed(st.tokens)
    ensures LexFrom(s, |s|, st) == Ok(st.tokens)
  {
  }

  /** `+` or `-` at `n` followed by the digit run `s[n + 1..e]`. */
  lemma LexSumTail(s: string, n: nat, e: nat, st: LexState, out: LexState)
    requires n + 1 < e <= |s| && (s[n] == '+' || s[n] == '-')
    requires DigitsBetween(s, n + 1, e) && (e == |s| || !IsDigit(s[e]))
    requires WellFormed(st.tokens) && !st.addParen
    requires out == LexState(st.tokens + [PunctuationToken(s[n]), IntegerToken(s[n + 1..e])], false)
    ensures WellFormed(out.tokens)
    ensures LexFrom(s, n, st) == LexFrom(s, e, out)
  {
    var mid := st.(tokens := st.tokens + [PunctuationToken(s[n])]);
    LexAfterPunctuation(s, n, st, mid);
    LexAfterDigits(s, n + 1, e, mid, out);
  }

  /** `*` or `/` at `n` followed by the digit run `s[n + 1..e]`. */
  lemma LexProductTail(s: string, n: nat, e: nat, st: LexState, out: LexState)
    requires n + 1 < e <= |s| && IsMultiplicative(s[n])
    requires DigitsBetween(s, n + 1, e) && (e == |s| || !IsDigit(s[e]))
    requires WellFormed(st.tokens) && |st.tokens| > 0
    requires out == LexState(InsertBeforeLast(st.tokens, LParenToken)
                               + [MultiplicativeToken(s[n]), IntegerToken(s[n + 1..e]), RParenToken], false)
    ensures WellFormed(out.tokens)
    ensures LexFrom(s, n, st) == LexFrom(s, e, out)
  {
    var mid := LexState(InsertBeforeLast(st.tokens, LParenToken) + [MultiplicativeToken(s[n])], true);
    LexAfterOperator(s, n, st, mid);
    LexAfterDigits(s, n + 1, e, mid, out);
  }

  /** Lexing `a c b` for a digit run `a = s[..n]`, an operator `c = s[n]` and a
      digit run `b = s[n + 1..]`. */
  lemma LexBinaryAt(s: string, n: nat)
    requires 0 < n < |s| - 1 && DigitsBetween(s, 0, n) && DigitsBetween(s, n + 1, |s|)
    requires s[n] == '+' || s[n] == '-' || IsMultiplicative(s[n])
    ensures Lexed(s) == Ok(
      if IsMultiplicative(s[n])
      then [LParenToken, IntegerToken(s[..n]), MultiplicativeToken(s[n]), IntegerToken(s[n + 1..]), RParenToken]
      else [IntegerToken(s[..n]), PunctuationToken(s[n]), IntegerToken(s[n + 1..])])
  {
    var a, b := s[..n], s[n + 1..];
    assert s[0..n] == a && s[n + 1..|s|] == b;
    var st1 := LexState([IntegerToken(a)], false);
    assert Lexed(s) == LexFrom(s, n, st1) by {
      LexAfterDigits(s, 0, n, LexState([], false), st1);
    }
    var out;
    if IsMultiplicative(s[n]) {
      out := LexState([LParenToken, IntegerToken(a), MultiplicativeToken(s[n]), IntegerToken(b), RParenToken], false);
      assert LexFrom(s, n, st1) == LexFrom(s, |s|, out) by {
        LexProductTail(s, n, |s|, st1, out);
      }
    } else {
      out := LexState([IntegerToken(a), PunctuationToken(s[n]), IntegerToken(b)], false);
      assert LexFrom(s, n, st1) == LexFrom(s, |s|, out) by {
        LexSumTail(s, n, |s|, st1, out);
      }
    }
    LexAtEnd(s, out);
  }

  /** Lexing `( a c b )` for digit runs `a = s[1..n]`, `b = s[n + 1..|s| - 1]`
      and an operator `c = s[n]`. */
  lemma LexParenthesisedAt(s: string, n: nat)
    requires 1 < n < |s| - 2 && s[0] == '(' && s[|s| - 1] == ')'
    requires DigitsBetween(s, 1, n) && DigitsBetween(s, n + 1, |s| - 1)
    requires s[n] == '+' || s[n] == '-' || IsMultiplicative(s[n])
    ensures Lexed(s) == Ok(
      if IsMultiplicative(s[n])
      then [LParenToken, LParenToken, IntegerToken(s[1..n]), MultiplicativeToken(s[n]),
            IntegerToken(s[n + 1..|s| - 1]), RParenToken, RParenToken]
      else [LParenToken, IntegerToken(s[1..n]), PunctuationToken(s[n]),
            IntegerToken(s[n + 1..|s| - 1]), RParenToken])
  {
    var a, b := s[1..n], s[n + 1..|s| - 1];
    var st2 := LexState([LParenToken, IntegerToken(a)], false);
    assert Lexed(s) == LexFrom(s, n, st2) by {
      var st1 := LexState([LParenToken], false);
      LexAfterPunctuation(s, 0, LexState([], false), st1);
      LexAfterDigits(s, 1, n, st1, st2);
    }
    var out;
    if IsMultiplicative(s[n]) {
      out := LexState([LParenToken, LParenToken, IntegerToken(a), MultiplicativeToken(s[n]),
                       IntegerToken(b), RParenToken], false);
      assert LexFrom(s, n, st2) == LexFrom(s, |s| - 1, out) by {
        LexProductTail(s, n, |s| - 1, st2, out);
      }
      assert out.tokens + [RParenToken] == [LParenToken, LParenToken, IntegerToken(a),
        MultiplicativeToken(s[n]), IntegerToken(b), RParenToken, RParenToken];
    } else {
      out := LexState([LParenToken, IntegerToken(a), PunctuationToken(s[n]), IntegerToken(b)], false);
      assert LexFrom(s, n, st2) == LexFrom(s, |s| - 1, out) by {
        LexSumTail(s, n, |s| - 1, st2, out);
      }
      assert out.tokens + [RParenToken] == [LParenToken, IntegerToken(a), PunctuationToken(s[n]),
        IntegerToken(b), RParenToken];
    }
    var closed := out.(tokens := out.tokens + [RParenToken]);
    assert LexFrom(s, |s| - 1, out) == Ok(closed.tokens) by {
      LexAfterPunctuation(s, |s| - 1, out, closed);
      LexAtEnd(s, closed);
    }
  }

  /** A lone number lexes to one integer token. */
  lemma LexNumber(a: string)
    requires IsDigitString(a)
    ensures Lexed(a) == Ok([IntegerToken(a)])
  {
    var out := LexState([IntegerToken(a)], false);
    assert a[0..|a|] == a;
    LexAfterDigits(a, 0, |a|, LexState([], false), out);
    LexAtEnd(a, out);
  }

  /** For digit strings `a`, `b`: `a+b` and `a-b` give three tokens. */
  lemma LexSum(a: string, c: char, b: string)
    requires IsDigitString(a) && IsDigitString(b)
    requires c == '+' || c == '-'
    ensures Lexed(a + [c] + b) == Ok([IntegerToken(a), PunctuationToken(c), IntegerToken(b)])
  {
    var s := a + [c] + b;
    assert s[..|a|] == a && s[|a|] == c && s[|a| + 1..] == b;
    LexBinaryAt(s, |a|);
  }

  /** For digit strings `a`, `b`: `a*b` and `a/b` give the synthetic grouping
      `( a * b )`. */
  lemma LexProduct(a: string, c: char, b: string)
    requires IsDigitString(a) && IsDigitString(b)
    requires IsMultiplicative(c)
    ensures Lexed(a + [c] + b) ==
      Ok([LParenToken, IntegerToken(a), MultiplicativeToken(c), IntegerToken(b), RParenToken])
  {
    var s := a + [c] + b;
    assert s[..|a|] == a && s[|a|] == c && s[|a| + 1..] == b;
    LexBinaryAt(s, |a|);
  }

  /** `(a+b)` and `(a-b)` give five tokens, the parentheses being the input's. */
  lemma LexParenthesised(a: string, c: char, b: string)
    requires IsDigitString(a) && IsDigitString(b)
    requires c == '+' || c == '-'
    ensures Lexed("(" + a + [c] + b + ")") == Ok(
      [LParenToken, IntegerToken(a), PunctuationToken(c), IntegerToken(b), RParenToken])
  {
    var s := "(" + a + [c] + b + ")";
    var n := |a| + 1;
    assert s[0] == '(' && s[1..n] == a && s[n] == c;
    assert s[n + 1..|s| - 1] == b && s[|s| - 1] == ')';
    LexParenthesisedAt(s, n);
  }

  /** `(a*b)` and `(a/b)`: the synthetic `(` goes after the input's own `(`,
      giving `( ( a * b ) )`. */
  lemma LexParenthesisedProduct(a: string, c: char, b: string)
    requires IsDigitString(a) && IsDigitString(b)
    requires IsMultiplicative(c)
    ensures Lexed("(" + a + [c] + b + ")") == Ok(
      [LParenToken, LParenToken, IntegerToken(a), MultiplicativeToken(c),
       IntegerToken(b), RParenToken, RParenToken])
  {
    var s := "(" + a + [c] + b + ")";
    var n := |a| + 1;
    assert s[0] == '(' && s[1..n] == a && s[n] == c;
    assert s[n + 1..|s| - 1] == b && s[|s| - 1] == ')';
    LexParenthesisedAt(s, n);
  }
}

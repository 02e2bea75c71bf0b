/** The whole interpreter: lex, parse, then evaluate. */
module Interpreter {
  import opened Wrappers
  import opened Tokens
  import opened Lexer
  import opened Ast
  import opened Parser
  import opened LexerProperties
  import opened ParserProperties

  /** Which stage failed, and how. */
  datatype Error =
    | LexFailure(lexError: LexError)
    | ParseFailure(parseError: ParseError)
    | EvalFailure(evalError: EvalError)

  /** The value of an expression text: `parse(lex(input))->eval()`. Lexing
      fails exactly on an unrecognised character or a leading `*` or `/`;
      parsing fails exactly when some `(` is not closed before the next `(`;
      evaluation fails only on a tree that divides. */
  function Interpreted(s: string): (r: Result<int, Error>)
    ensures (r.Err? && r.error.LexFailure?) <==> !(AllRecognized(s) && (|s| > 0 ==> !IsMultiplicative(s[0])))
    ensures (r.Err? && r.error.ParseFailure?) <==> Lexed(s).Ok? && !Flat(Lexed(s).value)
    ensures r.Err? && r.error.EvalFailure? ==>
      Lexed(s).Ok? && Parsed(Lexed(s).value).Ok? && HasDivision(Parsed(Lexed(s).value).value)
  {
    LexedOkIff(s);
    match Lexed(s)
    case Err(e) => Err(LexFailure(e))
    case Ok(tokens) =>
      ParsedOkIff(tokens);
      match Parsed(tokens)
      case Err(e) => Err(ParseFailure(e))
      case Ok(expr) =>
        match Eval(expr)
        case Err(e) => Err(EvalFailure(e))
        case Ok(v) => Ok(v)
  }

  /** The result of an input that lexes to `t`, which parses to `e`. */
  lemma InterpretedVia(s: string, t: seq<Token>, e: Expr)
    requires Lexed(s) == Ok(t) && WellFormed(t) && Parsed(t) == Ok(e)
    ensures Interpreted(s) == match Eval(e) case Ok(v) => Ok(v) case Err(err) => Err(EvalFailure(err))
  {
  }

  /** `a op b` as tokens: the operator and both operands. */
  lemma ParseBinary(a: string, o: Token, b: string)
    requires IsDigitString(a) && IsDigitString(b) && IsOperatorKind(o.kind)
    ensures WellFormed([IntegerToken(a), o, IntegerToken(b)])
    ensures Parsed([IntegerToken(a), o, IntegerToken(b)])
      == Ok(BinOp(OpOf(o.kind), Some(Lit(DigitsValue(a))), Some(Lit(DigitsValue(b)))))
  {
    var t := [IntegerToken(a), o, IntegerToken(b)];
    var x, y := Lit(DigitsValue(a)), Lit(DigitsValue(b));
    var op := OpOf(o.kind);
    var n1, n2, n3 := BinOp(Addition, Some(x), None), BinOp(op, Some(x), None), BinOp(op, Some(x), Some(y));
    assert Shaped(x) && Shaped(y);
    assert Shaped(n1) && Shaped(n2) && Shaped(n3);
    assert ParseLevel(t, 3, n3) == Ok(n3);
    assert ParseLevel(t, 2, n2) == Ok(n3);
    assert ParseLevel(t, 1, n1) == Ok(n3);
  }

  /** `( a op b )` as tokens: a node whose only child is the inner node. */
  lemma ParseParenthesisedBinary(a: string, o: Token, b: string)
    requires IsDigitString(a) && IsDigitString(b) && IsOperatorKind(o.kind)
    ensures WellFormed([LParenToken, IntegerToken(a), o, IntegerToken(b), RParenToken])
    ensures Parsed([LParenToken, IntegerToken(a), o, IntegerToken(b), RParenToken])
      == Ok(BinOp(Addition, Some(BinOp(OpOf(o.kind), Some(Lit(DigitsValue(a))), Some(Lit(DigitsValue(b))))), None))
  {
    var t := [LParenToken, IntegerToken(a), o, IntegerToken(b), RParenToken];
    var inner := BinOp(OpOf(o.kind), Some(Lit(DigitsValue(a))), Some(Lit(DigitsValue(b))));
    assert FirstRParen(t, 3) == 4;
    assert FirstRParen(t, 0) == 4;
    assert t[1..4] == [IntegerToken(a), o, IntegerToken(b)];
    ParseBinary(a, o, b);
    assert ParseLevel(t, 5, BinOp(Addition, Some(inner), None)) == Ok(BinOp(Addition, Some(inner), None));
  }

  /** `( ( a op b ) )` as tokens: the slice up to the first `)` holds an
      unclosed `(`. */
  lemma ParseDoublyParenthesised(a: string, o: Token, b: string)
    requires IsDigitString(a) && IsDigitString(b) && IsOperatorKind(o.kind)
    ensures WellFormed([LParenToken, LParenToken, IntegerToken(a), o, IntegerToken(b), RParenToken, RParenToken])
    ensures Parsed([LParenToken, LParenToken, IntegerToken(a), o, IntegerToken(b), RParenToken, RParenToken])
      == Err(UnmatchedParen)
  {
    var t := [LParenToken, LParenToken, IntegerToken(a), o, IntegerToken(b), RParenToken, RParenToken];
    var sub := [LParenToken, IntegerToken(a), o, IntegerToken(b)];
    assert FirstRParen(t, 4) == 5;
    assert FirstRParen(t, 0) == 5;
    assert t[1..5] == sub;
    assert FirstRParen(sub, 3) == 4;
    assert FirstRParen(sub, 0) == 4;
    SliceWellFormed(t, 1, 5);
    assert Parsed(sub) == Err(UnmatchedParen);
    assert ParseLevel(t, 0, EmptyNode) == Err(UnmatchedParen);
  }

  /** A number evaluates to its decimal value. */
  lemma InterpretNumber(a: string)
    requires IsDigitString(a)
    ensures Interpreted(a) == Ok(DigitsValue(a))
  {
    LexNumber(a);
    var t := [IntegerToken(a)];
    var e := BinOp(Addition, Some(Lit(DigitsValue(a))), None);
    assert ParseLevel(t, 1, e) == Ok(e);
    InterpretedVia(a, t, e);
  }

  /** `a+b` and `a-b`. */
  lemma InterpretSum(a: string, c: char, b: string)
    requires IsDigitString(a) && IsDigitString(b) && (c == '+' || c == '-')
    ensures Interpreted(a + [c] + b).Ok?
    ensures c == '+' ==> Interpreted(a + [c] + b).value == DigitsValue(a) + DigitsValue(b)
    ensures c == '-' ==> Interpreted(a + [c] + b).value == DigitsValue(a) - DigitsValue(b)
  {
    var x, y := DigitsValue(a), DigitsValue(b);
    var o := PunctuationToken(c);
    var op := OpOf(o.kind);
    var e := BinOp(op, Some(Lit(x)), Some(Lit(y)));
    EvalLiterals(op, x, y);
    ParseBinary(a, o, b);
    InterpretSumVia(a, c, b, [IntegerToken(a), o, IntegerToken(b)], e, Apply(op, x, y).value);
  }

  /** A node over two literals applies its operator to their values. */
  lemma EvalLiterals(op: Op, x: int, y: int)
    ensures Eval(BinOp(op, Some(Lit(x)), Some(Lit(y)))) == Apply(op, x, y)
  {
  }

  lemma InterpretSumVia(a: string, c: char, b: string, t: seq<Token>, e: Expr, v: int)
    requires IsDigitString(a) && IsDigitString(b) && (c == '+' || c == '-')
    requires t == [IntegerToken(a), PunctuationToken(c), IntegerToken(b)]
    requires WellFormed(t) && Parsed(t) == Ok(e) && Eval(e) == Ok(v)
    ensures Interpreted(a + [c] + b) == Ok(v)
  {
    LexSum(a, c, b);
    InterpretedVia(a + [c] + b, t, e);
  }

  /** `a*b` and `a/b`: a division by zero is an error; otherwise division of
      non-negative operands is floor division. */
  lemma InterpretProduct(a: string, c: char, b: string)
    requires IsDigitString(a) && IsDigitString(b) && (c == '*' || c == '/')
    ensures Interpreted(a + [c] + b) ==
      if c == '*' then Ok(DigitsValue(a) * DigitsValue(b))
      else if DigitsValue(b) == 0 then Err(EvalFailure(DivisionByZero))
      else Ok(DigitsValue(a) / DigitsValue(b))
  {
    var x: int, y: int := DigitsValue(a), DigitsValue(b);
    var o := MultiplicativeToken(c);
    var inner := BinOp(OpOf(o.kind), Some(Lit(x)), Some(Lit(y)));
    var e := BinOp(Addition, Some(inner), None);
    LexProduct(a, c, b);
    ParseParenthesisedBinary(a, o, b);
    assert Eval(e) == Eval(inner);
    if c == '*' {
      assert Eval(inner) == Ok(x * y);
    } else if y == 0 {
      assert Eval(inner) == Err(DivisionByZero);
    } else {
      assert Eval(inner) == Ok(x / y);
    }
    InterpretedVia(a + [c] + b, [LParenToken, IntegerToken(a), o, IntegerToken(b), RParenToken], e);
  }

  /** Parentheses around a sum or difference do not change its value. */
  lemma InterpretParenthesisedSum(a: string, c: char, b: string)
    requires IsDigitString(a) && IsDigitString(b) && (c == '+' || c == '-')
    ensures Interpreted("(" + a + [c] + b + ")") == Interpreted(a + [c] + b)
  {
    var x, y := DigitsValue(a), DigitsValue(b);
    var o := PunctuationToken(c);
    var inner := BinOp(OpOf(o.kind), Some(Lit(x)), Some(Lit(y)));
    var e := BinOp(Addition, Some(inner), None);
    assert Eval(e) == Eval(inner);
    LexParenthesised(a, c, b);
    ParseParenthesisedBinary(a, o, b);
    InterpretedVia("(" + a + [c] + b + ")", [LParenToken, IntegerToken(a), o, IntegerToken(b), RParenToken], e);
    LexSum(a, c, b);
    ParseBinary(a, o, b);
    InterpretedVia(a + [c] + b, [IntegerToken(a), o, IntegerToken(b)], inner);
  }

  /** A parenthesised product or quotient fails: the lexer adds a second `(`
      and the parser does not match nested parentheses. */
  lemma InterpretParenthesisedProduct(a: string, c: char, b: string)
    requires IsDigitString(a) && IsDigitString(b) && (c == '*' || c == '/')
    ensures Interpreted("(" + a + [c] + b + ")") == Err(ParseFailure(UnmatchedParen))
  {
    LexParenthesisedProduct(a, c, b);
    ParseDoublyParenthesised(a, MultiplicativeToken(c), b);
  }
}

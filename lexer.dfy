/** The lexer (`lex` in the interpreter header): characters to tokens, with
    synthetic parentheses around the operands of `*` and `/`. */
module Lexer {
  import opened Wrappers
  import opened Tokens

  /** The two inputs on which the original lexer has no defined behaviour. */
  datatype LexError =
    | UnrecognizedCharacter(pos: nat)  // the scan steps back before `begin()` or spins here
    | NoPrecedingToken(pos: nat)       // `*` or `/` with an empty token buffer

  /** The mutable state of the lexing loop: the token buffer and the flag that
      asks for a synthetic `)` after the next integer. */
  datatype LexState = LexState(tokens: seq<Token>, addParen: bool)

  predicate IsPunctuation(c: char) {
    c == '+' || c == '-' || c == '(' || c == ')'
  }

  predicate IsMultiplicative(c: char) {
    c == '*' || c == '/'
  }

  /** The characters the lexer handles; any other one is an error. */
  predicate Recognized(c: char) {
    IsPunctuation(c) || IsMultiplicative(c) || IsDigit(c)
  }

  /** The one-character token for `+`, `-`, `(` and `)`. */
  function PunctuationToken(c: char): (t: Token)
    requires IsPunctuation(c)
    ensures t.text == [c]
    ensures t.kind == (if c == '+' then Plus else if c == '-' then Minus
                       else if c == '(' then LParen else RParen)
  {
    match c
    case '+' => PlusToken
    case '-' => MinusToken
    case '(' => LParenToken
    case ')' => RParenToken
  }

  /** The operator token for `*` and `/`. */
  function MultiplicativeToken(c: char): (t: Token)
    requires IsMultiplicative(c)
    ensures t.text == [c]
    ensures t.kind == (if c == '*' then Multi else Divd)
  {
    if c == '*' then MultiToken else DivdToken
  }

  /** `find_if(it, end, !isdigit)`: the end of the digit run that starts at `i`. */
  function ScanDigits(s: string, i: nat): (j: nat)
    requires i <= |s|
    ensures i <= j <= |s|
    ensures DigitsBetween(s, i, j)
    ensures j == |s| || !IsDigit(s[j])
    decreases |s| - i
  {
    if i == |s| || !IsDigit(s[i]) then i else ScanDigits(s, i + 1)
  }

  /** `vector::insert(end() - 1, t)`: `t` goes just before the last element. */
  function InsertBeforeLast(ts: seq<Token>, t: Token): (r: seq<Token>)
    requires |ts| > 0
    ensures |r| == |ts| + 1
    ensures r[..|ts| - 1] == ts[..|ts| - 1]
    ensures r[|ts| - 1] == t && r[|ts|] == ts[|ts| - 1]
  {
    ts[..|ts| - 1] + [t, ts[|ts| - 1]]
  }

  /** One iteration of the lexing loop at position `i`: the new state and the
      position where the scan resumes. What it does per character is stated
      by the lemmas that follow. */
  function Step(s: string, i: nat, st: LexState): (r: Result<(LexState, nat), LexError>)
    requires i < |s|
    requires WellFormed(st.tokens)
    ensures r.Ok? ==> i < r.value.1 <= |s| && WellFormed(r.value.0.tokens)
    ensures r.Ok? ==> |r.value.0.tokens| > |st.tokens|
  {
    var c := s[i];
    if IsPunctuation(c) then
      Ok((st.(tokens := st.tokens + [PunctuationToken(c)]), i + 1))
    else if IsMultiplicative(c) then
      if |st.tokens| == 0 then Err(NoPrecedingToken(i))
      else
        Ok((LexState(InsertBeforeLast(st.tokens, LParenToken) + [MultiplicativeToken(c)], true),
            i + 1))
    else if IsDigit(c) then
      var j := ScanDigits(s, i);
      var withInteger := st.tokens + [IntegerToken(s[i..j])];
      Ok((LexState(if st.addParen then withInteger + [RParenToken] else withInteger, false), j))
    else
      Err(UnrecognizedCharacter(i))
  }

  /** `+ - ( )`: exactly one token, whose text is that character, is appended
      at the end; the flag is untouched and the scan moves on by one. */
  lemma StepOnPunctuation(s: string, i: nat, st: LexState)
    requires i < |s| && WellFormed(st.tokens) && IsPunctuation(s[i])
    ensures Step(s, i, st) == Ok((LexState(st.tokens + [PunctuationToken(s[i])], st.addParen), i + 1))
  {
  }

  /** `* /`: fails on an empty buffer; otherwise `(` is inserted just before the
      last token, the operator token is appended and the flag is set. */
  lemma StepOnOperator(s: string, i: nat, st: LexState)
    requires i < |s| && WellFormed(st.tokens) && IsMultiplicative(s[i])
    ensures Step(s, i, st).Ok? <==> |st.tokens| > 0
    ensures Step(s, i, st).Err? ==> Step(s, i, st).error == NoPrecedingToken(i)
    ensures Step(s, i, st).Ok? ==>
      var n := |st.tokens|;
      var (next, j) := Step(s, i, st).value;
      j == i + 1 && next.addParen &&
      |next.tokens| == n + 2 && next.tokens[..n - 1] == st.tokens[..n - 1] &&
      next.tokens[n - 1] == LParenToken && next.tokens[n] == st.tokens[n - 1] &&
      next.tokens[n + 1] == MultiplicativeToken(s[i])
  {
  }

  /** A digit: one integer token holding exactly the maximal digit run, then
      the pending synthetic `)` if the flag was set; the flag is cleared and the
      scan resumes at the first non-digit. */
  lemma StepOnDigit(s: string, i: nat, st: LexState)
    requires i < |s| && WellFormed(st.tokens) && IsDigit(s[i])
    ensures Step(s, i, st).Ok?
    ensures var (next, j) := Step(s, i, st).value;
      DigitsBetween(s, i, j) && (j == |s| || !IsDigit(s[j])) &&
      next == LexState(st.tokens + [IntegerToken(s[i..j])]
                         + (if st.addParen then [RParenToken] else []), false)
  {
  }

  /** Any other character is an error (the original loop never gets past it). */
  lemma StepOnUnrecognized(s: string, i: nat, st: LexState)
    requires i < |s| && WellFormed(st.tokens) && !Recognized(s[i])
    ensures Step(s, i, st) == Err(UnrecognizedCharacter(i))
  {
  }

  /** The lexing loop from position `i` on, as a function of its state. */
  function LexFrom(s: string, i: nat, st: LexState): (r: Result<seq<Token>, LexError>)
    requires i <= |s|
    requires WellFormed(st.tokens)
    ensures r.Ok? ==> WellFormed(r.value) && |r.value| >= |st.tokens|
    decreases |s| - i
  {
    if i == |s| then Ok(st.tokens)
    else
      match Step(s, i, st)
      case Err(e) => Err(e)
      case Ok((next, j)) => LexFrom(s, j, next)
  }

  /** What `lex` returns for `s`. */
  function Lexed(s: string): (r: Result<seq<Token>, LexError>)
    ensures r.Ok? ==> WellFormed(r.value)
  {
    LexFrom(s, 0, LexState([], false))
  }

  /** `lex`: the loop over the input, mutating the token buffer and the flag. */
  method Lex(input: string) returns (r: Result<seq<Token>, LexError>)
    ensures r == Lexed(input)
  {
    var result: seq<Token> := [];
    var addParen := false;
    var i := 0;
    while i < |input|
      invariant 0 <= i <= |input|
      invariant WellFormed(result)
      invariant LexFrom(input, i, LexState(result, addParen)) == Lexed(input)
      decreases |input| - i
    {
      var c := input[i];
      if c == '+' {
        result := result + [PlusToken];
        i := i + 1;
      } else if c == '-' {
        result := result + [MinusToken];
        i := i + 1;
      } else if c == '(' {
        result := result + [LParenToken];
        i := i + 1;
      } else if c == ')' {
        result := result + [RParenToken];
        i := i + 1;
      } else if c == '*' || c == '/' {
        if |result| == 0 {
          return Err(NoPrecedingToken(i));
        }
        result := result[..|result| - 1] + [LParenToken, result[|result| - 1]];
        result := result + [if c == '*' then MultiToken else DivdToken];
        addParen := true;
        i := i + 1;
      } else if '0' <= c <= '9' {
        var firstNotInt := i;
        while firstNotInt < |input| && '0' <= input[firstNotInt] <= '9'
          invariant i <= firstNotInt <= |input|
          invariant ScanDigits(input, firstNotInt) == ScanDigits(input, i)
          decreases |input| - firstNotInt
        {
          firstNotInt := firstNotInt + 1;
        }
        result := result + [IntegerToken(input[i..firstNotInt])];
        if addParen {
          result := result + [RParenToken];
          addParen := false;
        }
        i := firstNotInt;
      } else {
        return Err(UnrecognizedCharacter(i));
      }
    }
    return Ok(result);
  }
}

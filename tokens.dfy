/** Tokens produced by the lexer and consumed by the parser
    (`struct Token` of the interpreter header). */
module Tokens {

  /** The seven token kinds, in the order of the source enumeration. */
  datatype Kind = Integer | Plus | Minus | LParen | RParen | Multi | Divd

  /** A token: its kind and the text it was made from. */
  datatype Token = Token(kind: Kind, text: string)

  const PlusToken: Token := Token(Plus, "+")
  const MinusToken: Token := Token(Minus, "-")
  const LParenToken: Token := Token(LParen, "(")
  const RParenToken: Token := Token(RParen, ")")
  const MultiToken: Token := Token(Multi, "*")
  const DivdToken: Token := Token(Divd, "/")

  function IntegerToken(text: string): Token {
    Token(Integer, text)
  }

  /** `isdigit` in the C locale. */
  predicate IsDigit(c: char) {
    '0' <= c <= '9'
  }

  /** The operator kinds. */
  predicate IsOperatorKind(k: Kind) {
    k == Plus || k == Minus || k == Multi || k == Divd
  }

  /** Every character of `s[i..j]` is a decimal digit. */
  predicate DigitsBetween(s: string, i: nat, j: nat)
    requires i <= j <= |s|
  {
    forall k :: i <= k < j ==> IsDigit(s[k])
  }

  /** A non-empty run of decimal digits. */
  predicate IsDigitString(s: string) {
    |s| > 0 && DigitsBetween(s, 0, |s|)
  }

  function Pow10(n: nat): nat {
    if n == 0 then 1 else 10 * Pow10(n - 1)
  }

  /** The decimal value of a digit string (what `stoi` returns for it,
      without the 32-bit range check): less than 10 to the number of digits. */
  function DigitsValue(s: string): (v: nat)
    requires DigitsBetween(s, 0, |s|)
    ensures v < Pow10(|s|)
  {
    if s == [] then 0
    else
      assert IsDigit(s[|s| - 1]);
      10 * DigitsValue(s[..|s| - 1]) + ((s[|s| - 1] as int) - ('0' as int))
  }

  lemma {:induction false} Pow10Monotone(m: nat, n: nat)
    requires m <= n
    ensures Pow10(m) <= Pow10(n)
    decreases n - m
  {
    if m < n {
      Pow10Monotone(m, n - 1);
    }
  }

  /** A digit string of at most nine digits is within the range of a 32-bit
      `int`, so `stoi` accepts it without `out_of_range`. */
  lemma DigitsFitInt(s: string)
    requires IsDigitString(s) && |s| <= 9
    ensures DigitsValue(s) <= 0x7FFF_FFFF
  {
    Pow10Monotone(|s|, 9);
    assert Pow10(9) == 1_000_000_000;
  }

  /** Every integer token carries a non-empty digit string, as the lexer
      guarantees and as `stoi` in the parser needs. */
  predicate WellFormed(ts: seq<Token>) {
    forall k :: 0 <= k < |ts| && ts[k].kind == Integer ==> IsDigitString(ts[k].text)
  }

  /** A slice of a well-formed token list is well formed. */
  lemma SliceWellFormed(ts: seq<Token>, a: nat, b: nat)
    requires WellFormed(ts) && a <= b <= |ts|
    ensures WellFormed(ts[a..b])
  {
    forall k | 0 <= k < b - a && ts[a..b][k].kind == Integer
      ensures IsDigitString(ts[a..b][k].text)
    {
      assert ts[a..b][k] == ts[a + k];
    }
  }
}

/** The parser (`parse` in the interpreter header): one `BinaryOperation` per
    token slice, filled left to right, with a recursive call for each
    parenthesised sub-slice. */
module Parser {
  import opened Wrappers
  import opened Tokens
  import opened Ast

  /** An `(` with no later `)`: the original steps its iterator past the end. */
  datatype ParseError = UnmatchedParen

  /** The node `make_unique<BinaryOperation>()` creates: no children and the
      value-initialised operator. */
  const EmptyNode: Expr := BinOp(Addition, None, None)

  /** `find_if(it, end, is rparen)`: the first `)` at or after `i`, or `|t|`. */
  function FirstRParen(t: seq<Token>, i: nat): (j: nat)
    requires i <= |t|
    ensures i <= j <= |t|
    ensures j < |t| ==> t[j].kind == RParen
    ensures forall k :: i <= k < j ==> t[k].kind != RParen
    decreases |t| - i
  {
    if i == |t| || t[i].kind == RParen then i else FirstRParen(t, i + 1)
  }

  /** An operand goes to the left child if that is absent, else to the right
      child (overwriting an earlier right child). */
  function Place(node: Expr, e: Expr): (r: Expr)
    requires node.BinOp?
    ensures r.BinOp? && r.op == node.op
    ensures node.lhs.None? ==> r.lhs == Some(e) && r.rhs == node.rhs
    ensures node.lhs.Some? ==> r.lhs == node.lhs && r.rhs == Some(e)
  {
    if node.lhs.None? then node.(lhs := Some(e)) else node.(rhs := Some(e))
  }

  /** The operator an operator token sets: each token kind its own. */
  function OpOf(k: Kind): (op: Op)
    requires IsOperatorKind(k)
    ensures op == Addition <==> k == Plus
    ensures op == Subtraction <==> k == Minus
    ensures op == Multiplication <==> k == Multi
    ensures op == Division <==> k == Divd
  {
    match k
    case Plus => Addition
    case Minus => Subtraction
    case Multi => Multiplication
    case Divd => Division
  }

  /** The node a parse of `t` yields (the value of `parse`). */
  function Parsed(t: seq<Token>): (r: Result<Expr, ParseError>)
    requires WellFormed(t)
    ensures r.Ok? ==> r.value.BinOp? && Shaped(r.value)
    decreases |t|, 1
  {
    ParseLevel(t, 0, EmptyNode)
  }

  /** The parsing loop from token `i` on, with the node built so far. */
  function ParseLevel(t: seq<Token>, i: nat, node: Expr): (r: Result<Expr, ParseError>)
    requires WellFormed(t) && i <= |t|
    requires node.BinOp? && Shaped(node)
    ensures r.Ok? ==> r.value.BinOp? && Shaped(r.value)
    decreases |t|, 0, |t| - i
  {
    if i == |t| then Ok(node)
    else
      match t[i].kind
      case Integer => ParseLevel(t, i + 1, Place(node, Lit(DigitsValue(t[i].text))))
      case RParen => ParseLevel(t, i + 1, node)
      case LParen =>
        var j := FirstRParen(t, i);
        if j == |t| then Err(UnmatchedParen)
        else
          SliceWellFormed(t, i + 1, j);
          (match Parsed(t[i + 1..j])
           case Err(e) => Err(e)
           case Ok(sub) => ParseLevel(t, j + 1, Place(node, sub)))
      case _ => ParseLevel(t, i + 1, node.(op := OpOf(t[i].kind)))
  }

  /** `parse`: the loop updates the node's operator and children in place and
      recurses on the slice up to the first `)` after each `(`. */
  method Parse(tokens: seq<Token>) returns (r: Result<Expr, ParseError>)
    requires WellFormed(tokens)
    ensures r == Parsed(tokens)
    decreases |tokens|
  {
    var op := Addition;
    var lhs: Option<Expr> := None;
    var rhs: Option<Expr> := None;
    var i := 0;
    while i < |tokens|
      invariant 0 <= i <= |tokens|
      invariant Shaped(BinOp(op, lhs, rhs))
      invariant ParseLevel(tokens, i, BinOp(op, lhs, rhs)) == Parsed(tokens)
      decreases |tokens| - i
    {
      var token := tokens[i];
      match token.kind {
        case Integer =>
          var value := Lit(DigitsValue(token.text));
          if lhs.None? {
            lhs := Some(value);
          } else {
            rhs := Some(value);
          }
          i := i + 1;
        case Plus =>
          op := Addition;
          i := i + 1;
        case Minus =>
          op := Subtraction;
          i := i + 1;
        case Multi =>
          op := Multiplication;
          i := i + 1;
        case Divd =>
          op := Division;
          i := i + 1;
        case LParen =>
          var rparen := i;
          while rparen < |tokens| && tokens[rparen].kind != RParen
            invariant i <= rparen <= |tokens|
            invariant FirstRParen(tokens, rparen) == FirstRParen(tokens, i)
            decreases |tokens| - rparen
          {
            rparen := rparen + 1;
          }
          if rparen == |tokens| {
            return Err(UnmatchedParen);
          }
          var subexpression := tokens[i + 1..rparen];
          SliceWellFormed(tokens, i + 1, rparen);
          var sub := Parse(subexpression);
          if sub.Err? {
            return Err(sub.error);
          }
          if lhs.None? {
            lhs := Some(sub.value);
          } else {
            rhs := Some(sub.value);
          }
          i := rparen + 1;
        case RParen =>
          i := i + 1;
      }
    }
    return Ok(BinOp(op, lhs, rhs));
  }
}

/** What `parse` computes, stated independently of its loop: the node's
    operator is the last operator at the top level, its left child the first
    top-level operand and its right child the last one; and the parse fails
    exactly when some `(` is not closed by a `)` before the next `(`. */
module ParserProperties {
  import opened Wrappers
  import opened Tokens
  import opened Ast
  import opened Parser

  /** The operators outside parentheses from `i` on, in order. */
  function TopOperators(t: seq<Token>, i: nat): seq<Op>
    requires i <= |t|
    decreases |t| - i
  {
    if i == |t| then []
    else
      match t[i].kind
      case LParen =>
        var j := FirstRParen(t, i);
        if j == |t| then [] else TopOperators(t, j + 1)
      case Integer => TopOperators(t, i + 1)
      case RParen => TopOperators(t, i + 1)
      case _ => [OpOf(t[i].kind)] + TopOperators(t, i + 1)
  }

  /** An operand in front of the operands that follow it, unless those failed. */
  function Cons(e: Expr, res: Result<seq<Expr>, ParseError>): Result<seq<Expr>, ParseError> {
    match res
    case Err(err) => Err(err)
    case Ok(es) => Ok([e] + es)
  }

  /** The operands outside parentheses from `i` on, in order: a literal per
      integer token and the reference parse of each parenthesised slice. */
  function TopOperands(t: seq<Token>, i: nat): Result<seq<Expr>, ParseError>
    requires WellFormed(t) && i <= |t|
    decreases |t|, 0, |t| - i
  {
    if i == |t| then Ok([])
    else
      match t[i].kind
      case Integer => Cons(Lit(DigitsValue(t[i].text)), TopOperands(t, i + 1))
      case LParen =>
        var j := FirstRParen(t, i);
        if j == |t| then Err(UnmatchedParen)
        else
          SliceWellFormed(t, i + 1, j);
          (match Reference(t[i + 1..j])
           case Err(e) => Err(e)
           case Ok(sub) => Cons(sub, TopOperands(t, j + 1)))
      case _ => TopOperands(t, i + 1)
  }

  /** The node made of an operator list and an operand list. */
  function Node(os: seq<Op>, es: seq<Expr>): Expr {
    BinOp(if |os| == 0 then Addition else os[|os| - 1],
          if |es| == 0 then None else Some(es[0]),
          if |es| < 2 then None else Some(es[|es| - 1]))
  }

  /** The reference parse of a token list. */
  function Reference(t: seq<Token>): Result<Expr, ParseError>
    requires WellFormed(t)
    decreases |t|, 1
  {
    match TopOperands(t, 0)
    case Err(e) => Err(e)
    case Ok(es) => Ok(Node(TopOperators(t, 0), es))
  }

  /** A partly built node after the remaining operators and operands. */
  function Combine(node: Expr, os: seq<Op>, res: Result<seq<Expr>, ParseError>): Result<Expr, ParseError>
    requires node.BinOp?
  {
    match res
    case Err(e) => Err(e)
    case Ok(es) =>
      var lhs := if node.lhs.Some? then node.lhs else if |es| > 0 then Some(es[0]) else None;
      var rhs :=
        if node.lhs.Some? then (if |es| > 0 then Some(es[|es| - 1]) else node.rhs)
        else if |es| >= 2 then Some(es[|es| - 1]) else node.rhs;
      Ok(BinOp(if |os| == 0 then node.op else os[|os| - 1], lhs, rhs))
  }

  /** Placing an operand and then the rest is combining it in front. */
  lemma CombinePlace(node: Expr, e: Expr, os: seq<Op>, res: Result<seq<Expr>, ParseError>)
    requires node.BinOp? && Shaped(node)
    ensures Combine(Place(node, e), os, res) == Combine(node, os, Cons(e, res))
  {
  }

  /** Setting an operator and then the rest is combining it in front. */
  lemma CombineOperator(node: Expr, o: Op, os: seq<Op>, res: Result<seq<Expr>, ParseError>)
    requires node.BinOp?
    ensures Combine(node.(op := o), os, res) == Combine(node, [o] + os, res)
  {
  }

  lemma {:induction false} LevelMatchesAtParen(t: seq<Token>, i: nat, node: Expr)
    requires WellFormed(t) && i < |t| && t[i].kind == LParen
    requires node.BinOp? && Shaped(node)
    ensures ParseLevel(t, i, node) == Combine(node, TopOperators(t, i), TopOperands(t, i))
    decreases |t|, 0, |t| - i, 0
  {
    var j := FirstRParen(t, i);
    if j < |t| {
      var sub := t[i + 1..j];
      SliceWellFormed(t, i + 1, j);
      ParsedMatchesReference(sub);
      assert TopOperators(t, i) == TopOperators(t, j + 1);
      match Parsed(sub)
      case Err(e) =>
        assert ParseLevel(t, i, node) == Err(e);
        assert TopOperands(t, i) == Err(e);
      case Ok(v) =>
        assert ParseLevel(t, i, node) == ParseLevel(t, j + 1, Place(node, v));
        assert TopOperands(t, i) == Cons(v, TopOperands(t, j + 1));
        LevelMatchesReference(t, j + 1, Place(node, v));
        CombinePlace(node, v, TopOperators(t, j + 1), TopOperands(t, j + 1));
    }
  }

  lemma {:induction false} LevelMatchesReference(t: seq<Token>, i: nat, node: Expr)
    requires WellFormed(t) && i <= |t|
    requires node.BinOp? && Shaped(node)
    ensures ParseLevel(t, i, node) == Combine(node, TopOperators(t, i), TopOperands(t, i))
    decreases |t|, 0, |t| - i, 1
  {
    if i < |t| {
      var k := t[i].kind;
      if k == LParen {
        LevelMatchesAtParen(t, i, node);
      } else if k == Integer {
        var e := Lit(DigitsValue(t[i].text));
        LevelMatchesReference(t, i + 1, Place(node, e));
        CombinePlace(node, e, TopOperators(t, i + 1), TopOperands(t, i + 1));
      } else if k == RParen {
        LevelMatchesReference(t, i + 1, node);
      } else {
        LevelMatchesReference(t, i + 1, node.(op := OpOf(k)));
        CombineOperator(node, OpOf(k), TopOperators(t, i + 1), TopOperands(t, i + 1));
      }
    }
  }

  /** `parse` agrees with the reference: last operator, first operand, last
      operand. */
  lemma {:induction false} ParsedMatchesReference(t: seq<Token>)
    requires WellFormed(t)
    ensures Parsed(t) == Reference(t)
    decreases |t|, 1
  {
    LevelMatchesReference(t, 0, EmptyNode);
  }

  predicate IsParen(tok: Token) {
    tok.kind == LParen || tok.kind == RParen
  }

  /** The first parenthesis at or after `i`, or `|t|`. */
  function NextParen(t: seq<Token>, i: nat): (j: nat)
    requires i <= |t|
    ensures i <= j <= |t|
    ensures j < |t| ==> IsParen(t[j])
    ensures forall k :: i <= k < j ==> !IsParen(t[k])
    decreases |t| - i
  {
    if i == |t| || IsParen(t[i]) then i else NextParen(t, i + 1)
  }

  /** The `(` at `k` is closed: the next parenthesis after it is a `)`. */
  predicate ClosedAt(t: seq<Token>, k: nat)
    requires k < |t|
  {
    var n := NextParen(t, k + 1);
    n < |t| && t[n].kind == RParen
  }

  /** Every `(` from `i` on is closed before the next `(`. */
  predicate FlatFrom(t: seq<Token>, i: nat) {
    forall k :: i <= k < |t| && t[k].kind == LParen ==> ClosedAt(t, k)
  }

  predicate Flat(t: seq<Token>) {
    FlatFrom(t, 0)
  }

  /** A slice without `)` is flat exactly when it has no `(` either. */
  lemma FlatSlice(t: seq<Token>, a: nat, b: nat)
    requires a <= b <= |t|
    requires forall k :: a <= k < b ==> t[k].kind != RParen
    ensures Flat(t[a..b]) <==> forall k :: a <= k < b ==> t[k].kind != LParen
  {
    var s := t[a..b];
    if exists k :: a <= k < b && t[k].kind == LParen {
      var k :| a <= k < b && t[k].kind == LParen;
      assert s[k - a] == t[k];
      var n := NextParen(s, k - a + 1);
      if n < |s| {
        assert s[n] == t[a + n];
      }
    }
  }

  /** At a `(` whose first later `)` is at `j`: the suffix from that `(` is
      flat exactly when nothing between them is a `(` and the suffix after the
      `)` is flat. */
  lemma FlatAtParen(t: seq<Token>, i: nat, j: nat)
    requires i < |t| && t[i].kind == LParen && j == FirstRParen(t, i)
    ensures j == |t| ==> !FlatFrom(t, i)
    ensures j < |t| ==>
      (FlatFrom(t, i) <==> (forall k :: i + 1 <= k < j ==> t[k].kind != LParen) && FlatFrom(t, j + 1))
  {
    var n := NextParen(t, i + 1);
    if j == |t| {
      assert !ClosedAt(t, i) by {
        if n < |t| {
          assert t[n].kind != RParen;
        }
      }
    } else {
      if forall k :: i + 1 <= k < j ==> t[k].kind != LParen {
        assert n == j;
        assert ClosedAt(t, i);
      }
      if ClosedAt(t, i) {
        assert j == n;
      }
    }
  }

  lemma {:induction false} LevelOkAtParen(t: seq<Token>, i: nat, node: Expr)
    requires WellFormed(t) && i < |t| && t[i].kind == LParen
    requires node.BinOp? && Shaped(node)
    ensures ParseLevel(t, i, node).Ok? <==> FlatFrom(t, i)
    decreases |t|, 0, |t| - i, 0
  {
    var j := FirstRParen(t, i);
    FlatAtParen(t, i, j);
    if j < |t| {
      var sub := t[i + 1..j];
      SliceWellFormed(t, i + 1, j);
      ParsedOkIff(sub);
      FlatSlice(t, i + 1, j);
      match Parsed(sub)
      case Err(e) =>
        assert ParseLevel(t, i, node) == Err(e);
      case Ok(v) =>
        assert ParseLevel(t, i, node) == ParseLevel(t, j + 1, Place(node, v));
        LevelOkIff(t, j + 1, Place(node, v));
    }
  }

  lemma {:induction false} LevelOkIff(t: seq<Token>, i: nat, node: Expr)
    requires WellFormed(t) && i <= |t|
    requires node.BinOp? && Shaped(node)
    ensures ParseLevel(t, i, node).Ok? <==> FlatFrom(t, i)
    decreases |t|, 0, |t| - i, 1
  {
    if i < |t| {
      var k := t[i].kind;
      if k == LParen {
        LevelOkAtParen(t, i, node);
      } else if k == Integer {
        LevelOkIff(t, i + 1, Place(node, Lit(DigitsValue(t[i].text))));
      } else if k == RParen {
        LevelOkIff(t, i + 1, node);
      } else {
        LevelOkIff(t, i + 1, node.(op := OpOf(k)));
      }
    }
  }

  /** The parse succeeds exactly when every `(` is followed by a `)` before
      any other `(`: the slice handed to the recursive call ends at the first
      `)`, so a nested `(` in it is never closed. */
  lemma {:induction false} ParsedOkIff(t: seq<Token>)
    requires WellFormed(t)
    ensures Parsed(t).Ok? <==> Flat(t)
    decreases |t|, 1
  {
    LevelOkIff(t, 0, EmptyNode);
  }
}

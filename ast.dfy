/** The expression tree (`Expression`, `Integer`, `BinaryOperation`) and its
    evaluator (`eval`). */
module Ast {
  import opened Wrappers

  /** `BinaryOperation::Type`; `Addition` is the value-initialised default. */
  datatype Op = Addition | Subtraction | Multiplication | Division

  /** `Integer` is `Lit`; a `BinaryOperation` owns up to two children. */
  datatype Expr =
    | Lit(value: int)
    | BinOp(op: Op, lhs: Option<Expr>, rhs: Option<Expr>)

  /** Division by zero, undefined behaviour in the original evaluator. */
  datatype EvalError = DivisionByZero

  function Abs(x: int): nat {
    if x < 0 then -x else x
  }

  /** C++ `/` on integers: the quotient truncated toward zero. The remainder
      `a - q * b` is smaller than the divisor in magnitude and never has the
      opposite sign of the dividend. */
  function TruncDiv(a: int, b: int): (q: int)
    requires b != 0
    ensures Abs(a - q * b) < Abs(b)
    ensures a - q * b == 0 || (a - q * b > 0 <==> a > 0)
    ensures a >= 0 && b > 0 ==> q == a / b
  {
    var x, y := Abs(a), Abs(b);
    var m := x / y;
    var q: int := if (a >= 0) == (b > 0) then m else -m;
    TruncDivRemainder(a, b, x, y, m, q);
    q
  }

  lemma TruncDivRemainder(a: int, b: int, x: nat, y: nat, m: int, q: int)
    requires b != 0 && x == Abs(a) && y == Abs(b) && m == x / y
    requires q == if (a >= 0) == (b > 0) then m else -m
    ensures 0 <= x - m * y < y
    ensures a - q * b == (if a >= 0 then x - m * y else m * y - x)
    ensures a - q * b == 0 || (a - q * b > 0 <==> a > 0)
  {
    var p := m * y;
    assert 0 <= x - p < y;
    assert p >= 0 by {
      assert m >= 0;
    }
    if b > 0 {
      assert q * b == q * y;
    } else {
      assert q * b == -(q * y);
    }
    if (a >= 0) == (b > 0) {
      assert q * y == p;
    } else {
      assert q * y == -p;
    }
  }

  /** The arithmetic of one node whose two children both evaluated. */
  function Apply(op: Op, x: int, y: int): (r: Result<int, EvalError>)
    ensures r.Err? <==> op == Division && y == 0
  {
    match op
    case Addition => Ok(x + y)
    case Subtraction => Ok(x - y)
    case Multiplication => Ok(x * y)
    case Division => if y == 0 then Err(DivisionByZero) else Ok(TruncDiv(x, y))
  }

  /** Some node of the tree divides. */
  predicate HasDivision(e: Expr) {
    match e
    case Lit(_) => false
    case BinOp(op, l, r) =>
      op == Division || (l.Some? && HasDivision(l.value)) || (r.Some? && HasDivision(r.value))
  }

  /** `eval`: a literal is its value; a node without a left child is 0, one
      with only a left child is that child's value, otherwise the operation is
      applied to both children's values. Only a division can fail. */
  function Eval(e: Expr): (r: Result<int, EvalError>)
    ensures !HasDivision(e) ==> r.Ok?
  {
    match e
    case Lit(v) => Ok(v)
    case BinOp(op, l, r) =>
      if l.None? then Ok(0)
      else
        match Eval(l.value)
        case Err(err) => Err(err)
        case Ok(x) =>
          if r.None? then Ok(x)
          else
            match Eval(r.value)
            case Err(err) => Err(err)
            case Ok(y) => Apply(op, x, y)
  }

  /** Every node that has a right child also has a left one. */
  predicate Shaped(e: Expr) {
    match e
    case Lit(_) => true
    case BinOp(_, l, r) =>
      (r.Some? ==> l.Some?) && (l.Some? ==> Shaped(l.value)) && (r.Some? ==> Shaped(r.value))
  }
}

/** The operators of the second snapshot (src/ops.rs): each builds one node
    over its operands exactly as given, with no sorting and no rewriting. */
module Ops {
  import opened Syntax

  /** `x ^ y`. */
  function BitXor(x: Expr, y: Expr): (r: Expr)
    ensures forall env :: Eval(r, env) == (Eval(x, env) != Eval(y, env))
    ensures Size(r) == Size(x) + Size(y) + 1
    ensures VarSet(r) == VarSet(x) + VarSet(y)
    ensures r.Xor? && r.lhs == x && r.rhs == y
  {
    Xor(x, y)
  }

  /** `x & y`. */
  function BitAnd(x: Expr, y: Expr): (r: Expr)
    ensures forall env :: Eval(r, env) == (Eval(x, env) && Eval(y, env))
    ensures Size(r) == Size(x) + Size(y) + 1
    ensures VarSet(r) == VarSet(x) + VarSet(y)
    ensures r.And? && r.lhs == x && r.rhs == y
  {
    And(x, y)
  }

  /** `x | y`. */
  function BitOr(x: Expr, y: Expr): (r: Expr)
    ensures forall env :: Eval(r, env) == (Eval(x, env) || Eval(y, env))
    ensures Size(r) == Size(x) + Size(y) + 1
    ensures VarSet(r) == VarSet(x) + VarSet(y)
    ensures r.Or? && r.lhs == x && r.rhs == y
  {
    Or(x, y)
  }

  /** `!x`. */
  function BitNot(x: Expr): (r: Expr)
    ensures forall env :: Eval(r, env) == !Eval(x, env)
    ensures Size(r) == Size(x) + 1
    ensures VarSet(r) == VarSet(x)
    ensures r.Not? && r.inner == x
  {
    Not(x)
  }

  /** Every operator strictly grows the tree, so none of them is idempotent and
      negating twice never gives the operand back. */
  lemma {:induction false} NoSimplification(x: Expr, y: Expr)
    ensures BitAnd(x, x) != x && BitOr(x, x) != x
    ensures BitNot(BitNot(x)) != x
    ensures BitXor(x, y) != BitXor(y, x) <==> x != y
    ensures BitAnd(x, y) != BitAnd(y, x) <==> x != y
    ensures BitOr(x, y) != BitOr(y, x) <==> x != y
  {
    assert Size(BitNot(BitNot(x))) == Size(x) + 2;
  }
}

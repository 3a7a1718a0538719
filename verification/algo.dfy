/** The canonical ordering and the rewriting constructors of the first snapshot
    (src/algo.rs). The operator impls of src/expr.rs sort their operands with
    `SortMut` and then call `SmartAnd`, `SmartOr` or `SmartXor`; `SmartNot` is
    the negation operator. */
module Algo {
  import opened Syntax
  import opened Indices

  type u16 = x: nat | x < 0x1_0000

  const U16Max: u16 := 0xFFFF

  /** The kind of a node, in the order the ranking puts the kinds: variables,
      then negations, exclusive ors, conjunctions and disjunctions. */
  function Tier(e: Expr): nat {
    match e
    case Var(_) => 0
    case Not(_) => 1
    case Xor(_, _) => 2
    case And(_, _) => 3
    case Or(_, _) => 4
  }

  /** The sort key of a node, computed in `u16`. The subtraction cannot
      underflow because an index is at most 255. */
  function Prec(e: Expr): (p: u16)
    ensures U16Max - 259 <= p
  {
    U16Max - (match e
              case Var(id) => 4 + id
              case Not(_) => 3
              case Xor(_, _) => 2
              case And(_, _) => 1
              case Or(_, _) => 0)
  }

  /** The ranking orders the kinds by `Tier`; among variables the higher index
      ranks first; two nodes tie exactly when they are of the same kind and,
      for variables, have the same index. */
  lemma {:induction false} PrecRanks(a: Expr, b: Expr)
    ensures Tier(a) < Tier(b) ==> Prec(a) < Prec(b)
    ensures a.Var? && b.Var? ==> (Prec(a) < Prec(b) <==> b.id < a.id)
    ensures Prec(a) == Prec(b) <==> Tier(a) == Tier(b) && (a.Var? ==> a.id == b.id)
  {
  }

  /** The two operands of a commutative operator in rank order. */
  function Sort(lhs: Expr, rhs: Expr): (r: (Expr, Expr))
    ensures r == (lhs, rhs) || r == (rhs, lhs)
    ensures Prec(r.0) <= Prec(r.1)
    ensures Prec(lhs) == Prec(rhs) ==> r == (lhs, rhs)
  {
    var a := Prec(lhs);
    var b := Prec(rhs);
    if a > b then (rhs, lhs) else (lhs, rhs)
  }

  /** The in-place variant, as a function returning the swapped pair. */
  function SortMut(lhs: Expr, rhs: Expr): (r: (Expr, Expr))
    ensures r == Sort(lhs, rhs)
  {
    if Prec(lhs) > Prec(rhs) then (rhs, lhs) else (lhs, rhs)
  }

  /** Builders that apply no rewrite: each adds one node and composes the
      meaning of its operands with its connective. */
  function RawNot(e: Expr): (r: Expr)
    ensures forall env :: Eval(r, env) == !Eval(e, env)
    ensures Size(r) == Size(e) + 1 && VarSet(r) == VarSet(e)
  {
    Not(e)
  }

  function RawXor(lhs: Expr, rhs: Expr): (r: Expr)
    ensures forall env :: Eval(r, env) == (Eval(lhs, env) != Eval(rhs, env))
    ensures Size(r) == Size(lhs) + Size(rhs) + 1 && VarSet(r) == VarSet(lhs) + VarSet(rhs)
  {
    Xor(lhs, rhs)
  }

  function RawAnd(lhs: Expr, rhs: Expr): (r: Expr)
    ensures forall env :: Eval(r, env) == (Eval(lhs, env) && Eval(rhs, env))
    ensures Size(r) == Size(lhs) + Size(rhs) + 1 && VarSet(r) == VarSet(lhs) + VarSet(rhs)
  {
    And(lhs, rhs)
  }

  function RawOr(lhs: Expr, rhs: Expr): (r: Expr)
    ensures forall env :: Eval(r, env) == (Eval(lhs, env) || Eval(rhs, env))
    ensures Size(r) == Size(lhs) + Size(rhs) + 1 && VarSet(r) == VarSet(lhs) + VarSet(rhs)
  {
    Or(lhs, rhs)
  }

  /** Negation with double-negation elimination. */
  function SmartNot(e: Expr): (r: Expr)
    ensures forall env :: Eval(r, env) == !Eval(e, env)
    ensures VarSet(r) == VarSet(e)
    ensures Highest(r) == Highest(e)
    ensures e.Not? ==> r == e.inner
    ensures !e.Not? ==> r == Not(e)
  {
    match e
    case Not(x) => x
    case _ => RawNot(e)
  }

  /** Exclusive or: always a plain `Xor` node over the operands as given. */
  function SmartXor(lhs: Expr, rhs: Expr): (r: Expr)
    ensures r == Xor(lhs, rhs)
    ensures forall env :: Eval(r, env) == (Eval(lhs, env) != Eval(rhs, env))
  {
    match (lhs, rhs)
    case (a, b) => RawXor(a, b)
  }

  /** Conjunction with three rewrites, tried in order: idempotence; two
      negations `!a & !b` become `!(a & b)`; `!(c & d) & (c | d)` becomes
      `c ^ d`. The second rewrite is not sound (it produces a nand where a nor is
      meant), so the meaning is only promised when the operands are not both
      negations. */
  function SmartAnd(lhs: Expr, rhs: Expr): (r: Expr)
    ensures lhs == rhs ==> r == lhs
    ensures !(lhs.Not? && rhs.Not?) ==>
      forall env :: Eval(r, env) == (Eval(lhs, env) && Eval(rhs, env))
    ensures VarSet(r) <= VarSet(lhs) + VarSet(rhs)
    ensures Highest(r) <= Max(Highest(lhs), Highest(rhs))
    ensures Size(r) <= Size(lhs) + Size(rhs) + 1
  {
    if lhs == rhs then lhs
    else
      match (lhs, rhs)
      case (Not(a), Not(b)) => SmartNot(SmartAnd(a, b))
      case (Not(And(c, d)), Or(a, b)) =>
        if a == c && b == d then XorRuleSound(a, b); SmartXor(a, b) else RawAnd(lhs, rhs)
      case _ => RawAnd(lhs, rhs)
  }

  /** Disjunction with two rewrites, tried in order: idempotence;
      `!(c | d) | (c & d)` becomes `!(c ^ d)`. Both are sound. */
  function SmartOr(lhs: Expr, rhs: Expr): (r: Expr)
    ensures lhs == rhs ==> r == lhs
    ensures forall env :: Eval(r, env) == (Eval(lhs, env) || Eval(rhs, env))
    ensures VarSet(r) <= VarSet(lhs) + VarSet(rhs)
    ensures Highest(r) <= Max(Highest(lhs), Highest(rhs))
  {
    if lhs == rhs then lhs
    else
      match (lhs, rhs)
      case (Not(Or(c, d)), And(a, b)) =>
        if a == c && b == d then XnorRuleSound(a, b); SmartNot(SmartXor(a, b)) else RawOr(lhs, rhs)
      case _ => RawOr(lhs, rhs)
  }

  /** `!(c & d) & (c | d)` means `c ^ d`. */
  lemma {:induction false} XorRuleSound(c: Expr, d: Expr)
    ensures forall env :: (Eval(Not(And(c, d)), env) && Eval(Or(c, d), env)) == Eval(Xor(c, d), env)
  {
    forall env ensures (Eval(Not(And(c, d)), env) && Eval(Or(c, d), env)) == Eval(Xor(c, d), env) {
      var x, y := Eval(c, env), Eval(d, env);
      assert Eval(Not(And(c, d)), env) == !(x && y);
      assert Eval(Or(c, d), env) == (x || y);
    }
  }

  /** `!(c | d) | (c & d)` means `!(c ^ d)`. */
  lemma {:induction false} XnorRuleSound(c: Expr, d: Expr)
    ensures forall env :: (Eval(Not(Or(c, d)), env) || Eval(And(c, d), env)) == Eval(Not(Xor(c, d)), env)
  {
    forall env ensures (Eval(Not(Or(c, d)), env) || Eval(And(c, d), env)) == Eval(Not(Xor(c, d)), env) {
      var x, y := Eval(c, env), Eval(d, env);
      assert Eval(Not(Or(c, d)), env) == !(x || y);
      assert Eval(And(c, d), env) == (x && y);
    }
  }

  /** Negating twice gives the tree back exactly when it is not itself a double
      negation. */
  lemma {:induction false} NotInvolution(e: Expr)
    ensures SmartNot(SmartNot(e)) == e <==> !(e.Not? && e.inner.Not?)
  {
    if e.Not? && e.inner.Not? {
      assert Size(SmartNot(SmartNot(e))) < Size(e);
    }
  }

  /** Neither rewriting constructor builds a double negation. */
  lemma {:induction false} NoDoubleNegation(lhs: Expr, rhs: Expr)
    requires !(lhs.Not? && lhs.inner.Not?) && !(rhs.Not? && rhs.inner.Not?)
    ensures var r := SmartAnd(lhs, rhs); !(r.Not? && r.inner.Not?)
    ensures var r := SmartOr(lhs, rhs); !(r.Not? && r.inner.Not?)
  {
    if lhs != rhs && lhs.Not? && rhs.Not? {
      NoDoubleNegation(lhs.inner, rhs.inner);
    }
  }

  /** `!(c & d) & (c | d)` is recognised as `c ^ d`. */
  lemma {:induction false} AndRecognisesXor(c: Expr, d: Expr)
    ensures SmartAnd(Not(And(c, d)), Or(c, d)) == Xor(c, d)
  {
  }

  /** `!(c | d) | (c & d)` is recognised as `!(c ^ d)`. */
  lemma {:induction false} OrRecognisesXnor(c: Expr, d: Expr)
    ensures SmartOr(Not(Or(c, d)), And(c, d)) == Not(Xor(c, d))
  {
  }

  /** Two distinct negations are combined as the negation of the unsorted
      conjunction of their operands. */
  lemma {:induction false} AndOfNegations(a: Expr, b: Expr)
    requires a != b
    ensures SmartAnd(Not(a), Not(b)) == SmartNot(SmartAnd(a, b))
  {
  }

  /** When the negated operands are not themselves both negations, `!a & !b`
      evaluates to not-(a and b), not to not-(a or b). */
  lemma {:induction false} AndOfNegationsIsNand(a: Expr, b: Expr)
    requires !(a.Not? && b.Not?)
    ensures forall env :: Eval(SmartAnd(Not(a), Not(b)), env) == !(Eval(a, env) && Eval(b, env))
  {
  }

  /** The rewrite of two negations changes the meaning: with variable 0 true
      and variable 1 false, `!v0 & !v1` is false but the rewritten tree is true. */
  lemma {:induction false} AndOfNegationsUnsound()
    ensures var env := [true, false];
      Eval(SmartAnd(Not(Var(0)), Not(Var(1))), env) != (Eval(Not(Var(0)), env) && Eval(Not(Var(1)), env))
  {
  }
}

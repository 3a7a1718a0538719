/** Comparison in the second snapshot (src/cmp.rs): a hand-written structural
    equality, and an ordering that compares nothing but the precedence values
    of the two trees. The precedence method itself is not part of this model,
    so it is a parameter here: any integer-valued function of a whole tree. */
module Cmp {
  import opened Syntax

  /** `PartialEq::eq`: same variant and equal fields, compared recursively. */
  predicate Eq(a: Expr, b: Expr) {
    match (a, b)
    case (Var(x), Var(y)) => x == y
    case (Not(x), Not(y)) => Eq(x, y)
    case (Xor(p, q), Xor(r, s)) => Eq(p, r) && Eq(q, s)
    case (And(p, q), And(r, s)) => Eq(p, r) && Eq(q, s)
    case (Or(p, q), Or(r, s)) => Eq(p, r) && Eq(q, s)
    case _ => false
  }

  /** The hand-written equality is exactly equality of trees. */
  lemma {:induction false} EqIsEquality(a: Expr, b: Expr)
    ensures Eq(a, b) <==> a == b
  {
    match (a, b)
    case (Var(_), Var(_)) =>
    case (Not(x), Not(y)) =>
      EqIsEquality(x, y);
    case (Xor(p, q), Xor(r, s)) =>
      EqIsEquality(p, r);
      EqIsEquality(q, s);
    case (And(p, q), And(r, s)) =>
      EqIsEquality(p, r);
      EqIsEquality(q, s);
    case (Or(p, q), Or(r, s)) =>
      EqIsEquality(p, r);
      EqIsEquality(q, s);
    case _ =>
  }

  /** The marker `impl Eq` promises an equivalence relation, and it is one. */
  lemma {:induction false} EqIsEquivalence(a: Expr, b: Expr, c: Expr)
    ensures Eq(a, a)
    ensures Eq(a, b) ==> Eq(b, a)
    ensures Eq(a, b) && Eq(b, c) ==> Eq(a, c)
  {
    EqIsEquality(a, a);
    EqIsEquality(a, b);
    EqIsEquality(b, a);
    EqIsEquality(b, c);
    EqIsEquality(a, c);
  }

  datatype Ordering = Less | Equal | Greater

  datatype Option<T> = None | Some(value: T)

  /** `PartialOrd::partial_cmp`: always an answer, read off the precedence
      values of the two trees. */
  function PartialCmp(precedence: Expr -> int, a: Expr, b: Expr): (r: Option<Ordering>)
    ensures r.Some?
    ensures r.value == Equal <==> precedence(a) == precedence(b)
    ensures r.value == Less <==> precedence(a) < precedence(b)
  {
    var x := precedence(a);
    var y := precedence(b);
    Some(if x == y then Equal else if x > y then Greater else Less)
  }

  /** The ordering is a total preorder: every pair is compared, swapping the
      operands swaps `Less` and `Greater`, and two steps in one direction make
      one. `Equal` does not mean equal trees (see `EqualWithoutEq`). */
  lemma {:induction false} PartialCmpIsTotalPreorder(precedence: Expr -> int, a: Expr, b: Expr, c: Expr)
    ensures PartialCmp(precedence, a, b) == Some(Less) <==> PartialCmp(precedence, b, a) == Some(Greater)
    ensures PartialCmp(precedence, a, b) == Some(Equal) <==> PartialCmp(precedence, b, a) == Some(Equal)
    ensures PartialCmp(precedence, a, b) == Some(Less) && PartialCmp(precedence, b, c) == Some(Less)
      ==> PartialCmp(precedence, a, c) == Some(Less)
    ensures PartialCmp(precedence, a, b) == Some(Equal) && PartialCmp(precedence, b, c) == Some(Equal)
      ==> PartialCmp(precedence, a, c) == Some(Equal)
  {
  }

  /** The order agrees with the equality (`Equal` exactly for equal trees) if and
      only if the precedence tells every two distinct trees apart. */
  lemma {:induction false} CmpAgreesWithEqIff(precedence: Expr -> int)
    ensures (forall a, b :: PartialCmp(precedence, a, b) == Some(Equal) <==> Eq(a, b))
      <==> (forall a, b :: precedence(a) == precedence(b) ==> a == b)
  {
    forall a, b ensures Eq(a, b) <==> a == b {
      EqIsEquality(a, b);
    }
    if forall a, b :: PartialCmp(precedence, a, b) == Some(Equal) <==> Eq(a, b) {
      forall a, b | precedence(a) == precedence(b) ensures a == b {
        assert PartialCmp(precedence, a, b) == Some(Equal);
      }
    }
  }

  /** Distinct trees of equal precedence compare `Equal` although they are not
      equal. */
  lemma {:induction false} EqualWithoutEq(precedence: Expr -> int, a: Expr, b: Expr)
    requires precedence(a) == precedence(b) && a != b
    ensures PartialCmp(precedence, a, b) == Some(Equal)
    ensures !Eq(a, b)
  {
    EqIsEquality(a, b);
  }
}

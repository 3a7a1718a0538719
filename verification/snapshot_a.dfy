/** The first snapshot's `Expr` (src/expr.rs): the operators `& | ^ !`, which
    sort their operands and rewrite through the constructors of `Algo`, and the
    truth-table synthesizer `from_outputs` built on them. */
module SnapshotA {
  import opened Syntax
  import opened Indices
  import opened TruthTable
  import Algo

  /** `x & y`: sort the operands, then conjoin with rewriting. */
  function BitAnd(x: Expr, y: Expr): (r: Expr)
    ensures x == y ==> r == x
    ensures !(x.Not? && y.Not?) ==> forall env :: Eval(r, env) == (Eval(x, env) && Eval(y, env))
    ensures VarSet(r) <= VarSet(x) + VarSet(y)
    ensures Highest(r) <= Max(Highest(x), Highest(y))
  {
    var (lo, hi) := Algo.SortMut(x, y);
    Algo.SmartAnd(lo, hi)
  }

  /** `x | y`: sort the operands, then disjoin with rewriting. */
  function BitOr(x: Expr, y: Expr): (r: Expr)
    ensures x == y ==> r == x
    ensures forall env :: Eval(r, env) == (Eval(x, env) || Eval(y, env))
    ensures VarSet(r) <= VarSet(x) + VarSet(y)
    ensures Highest(r) <= Max(Highest(x), Highest(y))
  {
    var (lo, hi) := Algo.SortMut(x, y);
    Algo.SmartOr(lo, hi)
  }

  /** `x ^ y`: a plain `Xor` node over the operands in rank order. */
  function BitXor(x: Expr, y: Expr): (r: Expr)
    ensures r == Xor(x, y) || r == Xor(y, x)
    ensures r.Xor? && Algo.Prec(r.lhs) <= Algo.Prec(r.rhs)
    ensures forall env :: Eval(r, env) == (Eval(x, env) != Eval(y, env))
  {
    var (lo, hi) := Algo.SortMut(x, y);
    Algo.SmartXor(lo, hi)
  }

  /** `!x`: negation with double-negation elimination. */
  function BitNot(x: Expr): (r: Expr)
    ensures forall env :: Eval(r, env) == !Eval(x, env)
    ensures x.Not? ==> r == x.inner
  {
    Algo.SmartNot(x)
  }

  /** The operators are commutative whenever the operands have different ranks
      or are equal. */
  lemma {:induction false} Commutes(x: Expr, y: Expr)
    requires Algo.Prec(x) != Algo.Prec(y) || x == y
    ensures BitAnd(x, y) == BitAnd(y, x)
    ensures BitOr(x, y) == BitOr(y, x)
    ensures BitXor(x, y) == BitXor(y, x)
  {
  }

  /** Distinct operands of equal rank keep their order, so swapping them can
      change the tree. */
  lemma {:induction false} TiesAreNotCommuted()
    ensures BitAnd(Not(Var(0)), Not(Var(1))) != BitAnd(Not(Var(1)), Not(Var(0)))
    ensures BitXor(Not(Var(0)), Not(Var(1))) != BitXor(Not(Var(1)), Not(Var(0)))
  {
    assert BitAnd(Not(Var(0)), Not(Var(1))) == Not(And(Var(0), Var(1)));
    assert BitAnd(Not(Var(1)), Not(Var(0))) == Not(And(Var(1), Var(0)));
  }

  /** Variables are ordered by descending index: `v0 & v1` builds `v1 & v0`. */
  lemma {:induction false} HigherIndexFirst()
    ensures BitAnd(Var(0), Var(1)) == And(Var(1), Var(0))
  {
  }

  /** `!!x` gives `x` back unless `x` is itself a double negation. */
  lemma {:induction false} DoubleNot(x: Expr)
    ensures BitNot(BitNot(x)) == x <==> !(x.Not? && x.inner.Not?)
  {
    Algo.NotInvolution(x);
  }

  /** The closed forms for one variable, built without rewriting. */
  function Table2(t: seq<bool>): (e: Expr)
    requires |t| == 2
    ensures VarSet(e) == {0}
    ensures Highest(e) == 0
  {
    match (t[0], t[1])
    case (false, false) => Algo.RawAnd(Var(0), Algo.RawNot(Var(0)))
    case (true, false) => Var(0)
    case (false, true) => Algo.RawNot(Var(0))
    case (true, true) => Algo.RawOr(Var(0), Algo.RawNot(Var(0)))
  }

  /** The closed forms for two variables, built without rewriting. */
  function Table4(t: seq<bool>): (e: Expr)
    requires |t| == 4
    ensures VarSet(e) <= {0, 1}
    ensures Highest(e) <= 1
  {
    match (t[0], t[1], t[2], t[3])
    case (false, false, false, false) => Algo.RawAnd(Var(0), Algo.RawNot(Var(0)))
    case (true, false, false, false) => Algo.RawNot(Algo.RawOr(Var(0), Var(1)))
    case (false, true, false, false) => Algo.RawAnd(Var(1), Algo.RawNot(Var(0)))
    case (true, true, false, false) => Var(0)
    case (false, false, true, false) => Algo.RawAnd(Var(0), Algo.RawNot(Var(1)))
    case (true, false, true, false) => Algo.RawNot(Var(1))
    case (false, true, true, false) => Algo.RawXor(Var(0), Var(1))
    case (true, true, true, false) => Algo.RawNot(Algo.RawAnd(Var(0), Var(1)))
    case (false, false, false, true) => Algo.RawAnd(Var(0), Var(1))
    case (true, false, false, true) => Algo.RawNot(Algo.RawXor(Var(0), Var(1)))
    case (false, true, false, true) => Var(1)
    case (true, true, false, true) => Algo.RawOr(Var(1), Algo.RawNot(Var(0)))
    case (false, false, true, true) => Var(0)
    case (true, false, true, true) => Algo.RawOr(Var(0), Algo.RawNot(Var(1)))
    case (false, true, true, true) => Algo.RawOr(Var(0), Var(1))
    case (true, true, true, true) => Algo.RawOr(Var(0), Algo.RawNot(Var(0)))
  }

  /** The recursive step: `(!v0 & a) | (v0 & b)` through the rewriting
      operators, for subtrees whose indices were already shifted up. */
  function Shannon(a: Expr, b: Expr): (e: Expr)
    ensures VarSet(e) <= {0} + VarSet(a) + VarSet(b)
    ensures Highest(e) <= Max(Highest(a), Highest(b))
  {
    BitOr(BitAnd(Algo.RawNot(Var(0)), a), BitAnd(Var(0), b))
  }

  /** Shift the trees for both halves up and join them on variable 0; the
      result's highest index is one above theirs at most. */
  function Join(a: Expr, b: Expr): (e: Expr)
    requires Highest(a) < 255 && Highest(b) < 255
    ensures Highest(e) <= Max(Highest(a), Highest(b)) + 1
  {
    Shannon(IncVars(a), IncVars(b))
  }

  /** `from_outputs`: panics on a length that is not a power of two or is below
      2; maps the 4 tables of length 2 and the 16 of length 4 to fixed trees;
      otherwise synthesizes both halves, shifts their indices up and joins them
      on variable 0. Every index in the result is below the number of variables
      the table has, so the recursion never shifts an index past 255. */
  function FromOutputs(t: seq<bool>): (r: Synthesis)
    requires Log2(|t|) <= 256
    ensures r.Panicked? <==> !ValidLength(|t|)
    ensures !IsPowerOfTwo(|t|) ==> r == Panicked(NotPowerOfTwo)
    ensures |t| == 1 ==> r == Panicked(TooShort)
    ensures r.Built? ==> Highest(r.expr) < Log2(|t|)
    decreases |t|
  {
    if !IsPowerOfTwo(|t|) then Panicked(NotPowerOfTwo)
    else if |t| < 2 then Panicked(TooShort)
    else if |t| == 2 then Built(Table2(t))
    else if |t| == 4 then Built(Table4(t))
    else
      HalfOfValid(|t|);
      var h := |t| / 2;
      var lo, hi := t[..h], t[h..];
      assert |lo| == h && |hi| == h;
      var a := FromOutputs(lo).expr;
      var b := FromOutputs(hi).expr;
      Built(Join(a, b))
  }


  /** The rows `[T,T,F,F]` and `[F,F,T,T]` give the same tree. */
  lemma {:induction false} RowsCollide()
    ensures FromOutputs(CollidingRow) == FromOutputs([false, false, true, true]) == Built(Var(0))
  {
    assert IsPowerOfTwo(4);
  }

  /** A table of length 2 is reproduced exactly when it is constant; the two
      other rows give the complement of their table. */
  lemma {:induction false} Table2Reading(t: seq<bool>)
    requires |t| == 2
    ensures Realises(Table2(t), t) <==> t[0] == t[1]
    ensures t[0] != t[1] ==> Realises(Table2(t), [t[1], t[0]])
  {
    Realises2(Table2(t), t);
    Realises2(Table2(t), [t[1], t[0]]);
  }

  /** Fifteen of the sixteen tables of length 4 are reproduced; the colliding
      row gives `Var(0)`, which reproduces the complemented table. */
  lemma {:induction false} Table4Reading(t: seq<bool>)
    requires |t| == 4
    ensures Realises(Table4(t), t) <==> t != CollidingRow
    ensures Realises(Table4(CollidingRow), [false, false, true, true])
  {
    Realises4(Table4(t), t);
    Realises4(Var(0), [false, false, true, true]);
    assert t == [t[0], t[1], t[2], t[3]];
    Table4Rows(t);
  }

  /** The row-by-row form of `Table4Reading`. */
  lemma {:induction false} Table4Rows(t: seq<bool>)
    requires |t| == 4
    ensures var e := Table4(t);
      (&& Eval(e, [false, false]) == t[0] && Eval(e, [false, true]) == t[1]
       && Eval(e, [true, false]) == t[2] && Eval(e, [true, true]) == t[3])
      <==> (t[0], t[1], t[2], t[3]) != (true, true, false, false)
  {
    match (t[0], t[1], t[2], t[3])
    case (false, false, false, false) =>
    case (true, false, false, false) =>
    case (false, true, false, false) =>
    case (true, true, false, false) =>
    case (false, false, true, false) =>
    case (true, false, true, false) =>
    case (false, true, true, false) =>
    case (true, true, true, false) =>
    case (false, false, false, true) =>
    case (true, false, false, true) =>
    case (false, true, false, true) =>
    case (true, true, false, true) =>
    case (false, false, true, true) =>
    case (true, false, true, true) =>
    case (false, true, true, true) =>
    case (true, true, true, true) =>
  }

  /** The recursive step reads variable 0 as the selector between the halves,
      provided the tree for the first half is not a negation (otherwise the
      unsound rewrite of `Algo.SmartAnd` fires on `!v0 & a`). */
  lemma {:induction false} ShannonReading(a: Expr, b: Expr, t: seq<bool>)
    requires ValidLength(|t|)
    requires Highest(a) < 255 && Highest(b) < 255
    requires !a.Not?
    ensures Realises(Shannon(IncVars(a), IncVars(b)), t) <==>
      Realises(a, t[..|t| / 2]) && Realises(b, t[|t| / 2..])
  {
    var ia, ib := IncVars(a), IncVars(b);
    var e := Shannon(ia, ib);
    assert !ia.Not? by {
      assert Erase(ia) == Erase(a);
    }
    forall env
      ensures Eval(a, env) == Eval(e, [false] + env)
      ensures Eval(b, env) == Eval(e, [true] + env)
    {
      ShannonSelects(ia, ib, env);
      IncVarsEval(a, false, env);
      IncVarsEval(b, true, env);
    }
    SplitReading(e, a, b, t);
  }

  /** With a first operand that is not a negation, the join reads as its first
      operand when variable 0 is false and as its second when it is true. */
  lemma {:induction false} ShannonSelects(a: Expr, b: Expr, env: seq<bool>)
    requires !a.Not?
    ensures Eval(Shannon(a, b), [false] + env) == Eval(a, [false] + env)
    ensures Eval(Shannon(a, b), [true] + env) == Eval(b, [true] + env)
  {
    var lo, hi := BitAnd(Algo.RawNot(Var(0)), a), BitAnd(Var(0), b);
    assert Eval(Shannon(a, b), [false] + env) == (Eval(lo, [false] + env) || Eval(hi, [false] + env));
    assert Eval(Shannon(a, b), [true] + env) == (Eval(lo, [true] + env) || Eval(hi, [true] + env));
    assert Lookup([false] + env, 0) == false;
    assert Lookup([true] + env, 0) == true;
  }

  /** A concrete table on which the result is wrong: the first half gives
      `!v1`, which after shifting meets `!v0` in the unsound rewrite. Row 4
      (v0 true, v1 and v2 false) should be false but evaluates to true. */
  lemma {:induction false} NegatedHalfMisread()
    ensures var t := [true, false, true, false, false, false, false, false];
      FromOutputs(t).Built? && Eval(FromOutputs(t).expr, Bits(4, 3)) != t[4]
  {
    NegatedHalfTree();
    assert Bits(0, 1) == [false];
    assert Bits(0, 2) == [false, false];
    assert Bits(4, 3) == [true, false, false];
  }

  lemma {:induction false} NegatedHalfTree()
    ensures Log2(8) == 3
    ensures FromOutputs([true, false, true, false, false, false, false, false])
      == Built(Or(Not(And(Var(0), Var(2))), And(Var(0), And(Var(1), Not(Var(1))))))
  {
    var t := [true, false, true, false, false, false, false, false];
    assert IsPowerOfTwo(8) && Log2(8) == 3;
    assert t[..4] == [true, false, true, false];
    assert t[4..] == [false, false, false, false];
    assert FromOutputs(t[..4]) == Built(Not(Var(1)));
    assert FromOutputs(t[4..]) == Built(And(Var(0), Not(Var(0))));
    assert Shannon(Not(Var(2)), And(Var(1), Not(Var(1))))
      == Or(Not(And(Var(0), Var(2))), And(Var(0), And(Var(1), Not(Var(1)))));
  }
}

/** The evidently intended behaviour where the source departs from it: De
    Morgan's law in the rewrite of two negations, and the three closed-form rows
    of `from_outputs` that give the complement of their table. With those
    corrected, the synthesizer reproduces every table it accepts. */
module Intended {
  import opened Syntax
  import opened Indices
  import opened TruthTable
  import Algo
  import Ops
  import SnapshotB

  /** Conjunction with the rewrite of two negations read as De Morgan's law:
      `!a & !b` becomes `!(a | b)`. The other rewrites are those of
      `Algo.SmartAnd`. */
  function SmartAnd(lhs: Expr, rhs: Expr): (r: Expr)
    ensures lhs == rhs ==> r == lhs
    ensures forall env :: Eval(r, env) == (Eval(lhs, env) && Eval(rhs, env))
    ensures VarSet(r) <= VarSet(lhs) + VarSet(rhs)
  {
    if lhs == rhs then lhs
    else
      match (lhs, rhs)
      case (Not(a), Not(b)) => Algo.SmartNot(Algo.SmartOr(a, b))
      case (Not(And(c, d)), Or(a, b)) =>
        if a == c && b == d then Algo.XorRuleSound(a, b); Algo.SmartXor(a, b) else Algo.RawAnd(lhs, rhs)
      case _ => Algo.RawAnd(lhs, rhs)
  }

  /** The correction only changes the case of two distinct negations, and
      there only when conjunction and disjunction of their operands give
      different trees. */
  lemma {:induction false} SmartAndAgrees(lhs: Expr, rhs: Expr)
    requires !(lhs.Not? && lhs.inner.Not?) && !(rhs.Not? && rhs.inner.Not?)
    ensures SmartAnd(lhs, rhs) == Algo.SmartAnd(lhs, rhs) <==>
      lhs == rhs || !(lhs.Not? && rhs.Not?) || Algo.SmartAnd(lhs.inner, rhs.inner) == Algo.SmartOr(lhs.inner, rhs.inner)
  {
    if lhs != rhs && lhs.Not? && rhs.Not? {
      var a, b := lhs.inner, rhs.inner;
      var x, y := Algo.SmartAnd(a, b), Algo.SmartOr(a, b);
      Algo.NoDoubleNegation(a, b);
      Algo.NotInvolution(x);
      Algo.NotInvolution(y);
    }
  }

  /** The closed forms for one variable with the two middle rows swapped, so
      that the output for variable 0 false comes first. Each row is
      reproduced. */
  function Table2(t: seq<bool>): (e: Expr)
    requires |t| == 2
    ensures VarSet(e) == {0}
    ensures Highest(e) == 0
    ensures Eval(e, [false]) == t[0] && Eval(e, [true]) == t[1]
  {
    match (t[0], t[1])
    case (false, false) => Ops.BitAnd(Var(0), Ops.BitNot(Var(0)))
    case (true, false) => Ops.BitNot(Var(0))
    case (false, true) => Var(0)
    case (true, true) => Ops.BitOr(Var(0), Ops.BitNot(Var(0)))
  }

  /** The closed forms for two variables with the row `[T,T,F,F]` mapped to
      `!v0`. Each row is reproduced, with (v0, v1) running through (F,F), (F,T),
      (T,F), (T,T). */
  function Table4(t: seq<bool>): (e: Expr)
    requires |t| == 4
    ensures VarSet(e) <= {0, 1}
    ensures Highest(e) <= 1
    ensures Eval(e, [false, false]) == t[0] && Eval(e, [false, true]) == t[1]
    ensures Eval(e, [true, false]) == t[2] && Eval(e, [true, true]) == t[3]
  {
    if t == CollidingRow then
      Ops.BitNot(Var(0))
    else
      SnapshotB.Table4Reading(t);
      Realises4(SnapshotB.Table4(t), t);
      SnapshotB.Table4(t)
  }

  /** `from_outputs` with the corrected closed forms and the plain Shannon
      step of the second snapshot. */
  function FromOutputs(t: seq<bool>): (r: Synthesis)
    requires Log2(|t|) <= 256
    ensures r.Panicked? <==> !ValidLength(|t|)
    ensures !IsPowerOfTwo(|t|) ==> r == Panicked(NotPowerOfTwo)
    ensures |t| == 1 ==> r == Panicked(TooShort)
    ensures r.Built? ==> Highest(r.expr) < Log2(|t|)
    decreases |t|
  {
    if !IsPowerOfTwo(|t|) then Panicked(NotPowerOfTwo)
    else if |t| < 2 then Panicked(TooShort)
    else if |t| == 2 then Built(Table2(t))
    else if |t| == 4 then Built(Table4(t))
    else
      HalfOfValid(|t|);
      var h := |t| / 2;
      var lo, hi := t[..h], t[h..];
      assert |lo| == h && |hi| == h;
      var a := FromOutputs(lo).expr;
      var b := FromOutputs(hi).expr;
      Built(SnapshotB.Join(a, b))
  }

  /** Two tables of 4 or more outputs of the same length, concatenated, give
      the join of their trees. */
  lemma {:induction false} Step(lo: seq<bool>, hi: seq<bool>)
    requires |lo| == |hi| && ValidLength(|lo|) && |lo| >= 4 && Log2(|lo|) < 256
    ensures Log2(|lo + hi|) == Log2(|lo|) + 1
    ensures FromOutputs(lo).Built? && FromOutputs(hi).Built?
    ensures Highest(FromOutputs(lo).expr) < 255 && Highest(FromOutputs(hi).expr) < 255
    ensures FromOutputs(lo + hi) == Built(SnapshotB.Join(FromOutputs(lo).expr, FromOutputs(hi).expr))
  {
    var t := lo + hi;
    assert |t| / 2 == |lo| && t[..|lo|] == lo && t[|lo|..] == hi;
    assert Log2(|t|) == Log2(|lo|) + 1;
    assert ValidLength(|t|) && |t| >= 8;
  }

  /** The corrected synthesizer reproduces every table whose length is a power
      of two of at least 2. */
  lemma {:induction false} FromOutputsRealises(t: seq<bool>)
    requires ValidLength(|t|) && Log2(|t|) <= 256
    ensures FromOutputs(t).Built?
    ensures Realises(FromOutputs(t).expr, t)
  {
    if |t| == 2 {
      assert IsPowerOfTwo(2);
      Realises2(Table2(t), t);
    } else if |t| == 4 {
      assert IsPowerOfTwo(4);
      Realises4(Table4(t), t);
    } else {
      HalfOfValid(|t|);
      var h := |t| / 2;
      var lo, hi := t[..h], t[h..];
      assert |lo| == h && |hi| == h && lo + hi == t;
      Step(lo, hi);
      FromOutputsRealises(lo);
      FromOutputsRealises(hi);
      SnapshotB.JoinReading(FromOutputs(lo).expr, FromOutputs(hi).expr, t);
    }
  }

  /** On tables of four or more outputs free of the colliding row, the
      corrected synthesizer builds the very tree the second snapshot builds. */
  lemma {:induction false} AgreesOffCollisions(t: seq<bool>)
    requires ValidLength(|t|) && |t| >= 4 && Log2(|t|) <= 256
    requires NoCollidingBlock(t)
    ensures FromOutputs(t) == SnapshotB.FromOutputs(t)
  {
    if |t| == 4 {
      assert IsPowerOfTwo(4);
      assert Block(t, 0) == t;
    } else {
      HalfOfValid(|t|);
      var h := |t| / 2;
      var lo, hi := t[..h], t[h..];
      assert |lo| == h && |hi| == h && lo + hi == t;
      Step(lo, hi);
      SnapshotB.Step(lo, hi);
      NoCollidingBlockSplit(t);
      AgreesOffCollisions(lo);
      AgreesOffCollisions(hi);
    }
  }
}

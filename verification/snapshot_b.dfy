/** The second snapshot's `Expr` (src/lib.rs): the same index helpers and the
    same `from_outputs`, now written with the plain operators of `Ops`, so the
    recursive step builds `(!v0 & a) | (v0 & b)` exactly as written. */
module SnapshotB {
  import opened Syntax
  import opened Indices
  import opened TruthTable
  import Ops
  import SnapshotA

  /** The closed forms for one variable. */
  function Table2(t: seq<bool>): (e: Expr)
    requires |t| == 2
    ensures VarSet(e) == {0}
    ensures Highest(e) == 0
  {
    match (t[0], t[1])
    case (false, false) => Ops.BitAnd(Var(0), Ops.BitNot(Var(0)))
    case (true, false) => Var(0)
    case (false, true) => Ops.BitNot(Var(0))
    case (true, true) => Ops.BitOr(Var(0), Ops.BitNot(Var(0)))
  }

  /** The closed forms for two variables. */
  function Table4(t: seq<bool>): (e: Expr)
    requires |t| == 4
    ensures VarSet(e) <= {0, 1}
    ensures Highest(e) <= 1
  {
    match (t[0], t[1], t[2], t[3])
    case (false, false, false, false) => Ops.BitAnd(Var(0), Ops.BitNot(Var(0)))
    case (true, false, false, false) => Ops.BitNot(Ops.BitOr(Var(0), Var(1)))
    case (false, true, false, false) => Ops.BitAnd(Var(1), Ops.BitNot(Var(0)))
    case (true, true, false, false) => Var(0)
    case (false, false, true, false) => Ops.BitAnd(Var(0), Ops.BitNot(Var(1)))
    case (true, false, true, false) => Ops.BitNot(Var(1))
    case (false, true, true, false) => Ops.BitXor(Var(0), Var(1))
    case (true, true, true, false) => Ops.BitNot(Ops.BitAnd(Var(0), Var(1)))
    case (false, false, false, true) => Ops.BitAnd(Var(0), Var(1))
    case (true, false, false, true) => Ops.BitNot(Ops.BitXor(Var(0), Var(1)))
    case (false, true, false, true) => Var(1)
    case (true, true, false, true) => Ops.BitOr(Var(1), Ops.BitNot(Var(0)))
    case (false, false, true, true) => Var(0)
    case (true, false, true, true) => Ops.BitOr(Var(0), Ops.BitNot(Var(1)))
    case (false, true, true, true) => Ops.BitOr(Var(0), Var(1))
    case (true, true, true, true) => Ops.BitOr(Var(0), Ops.BitNot(Var(0)))
  }

  /** The recursive step: shift both trees up and select between them on
      variable 0 with `(!v0 & a) | (v0 & b)`. */
  function Join(a: Expr, b: Expr): (e: Expr)
    requires Highest(a) < 255 && Highest(b) < 255
    ensures Highest(e) <= Max(Highest(a), Highest(b)) + 1
    ensures e.Or? && e.lhs.And? && e.rhs.And? && e.lhs.lhs == Not(Var(0)) && e.rhs.lhs == Var(0)
    ensures forall env :: Eval(e, [false] + env) == Eval(a, env)
    ensures forall env :: Eval(e, [true] + env) == Eval(b, env)
  {
    var ia, ib := IncVars(a), IncVars(b);
    var e := Ops.BitOr(Ops.BitAnd(Ops.BitNot(Var(0)), ia), Ops.BitAnd(Var(0), ib));
    forall env ensures Eval(e, [false] + env) == Eval(a, env) && Eval(e, [true] + env) == Eval(b, env) {
      IncVarsEval(a, false, env);
      IncVarsEval(b, true, env);
    }
    e
  }

  /** `from_outputs`, with the same panics as the first snapshot and a plain
      Shannon expansion on variable 0 for tables of 8 or more outputs. */
  function FromOutputs(t: seq<bool>): (r: Synthesis)
    requires Log2(|t|) <= 256
    ensures r.Panicked? <==> !ValidLength(|t|)
    ensures !IsPowerOfTwo(|t|) ==> r == Panicked(NotPowerOfTwo)
    ensures |t| == 1 ==> r == Panicked(TooShort)
    ensures r.Built? ==> Highest(r.expr) < Log2(|t|)
    decreases |t|
  {
    if !IsPowerOfTwo(|t|) then Panicked(NotPowerOfTwo)
    else if |t| < 2 then Panicked(TooShort)
    else if |t| == 2 then Built(Table2(t))
    else if |t| == 4 then Built(Table4(t))
    else
      HalfOfValid(|t|);
      var h := |t| / 2;
      var lo, hi := t[..h], t[h..];
      assert |lo| == h && |hi| == h;
      var a := FromOutputs(lo).expr;
      var b := FromOutputs(hi).expr;
      Built(Join(a, b))
  }

  /** The tables of one and two variables give the same trees as in the first
      snapshot: `Ops` builds exactly what the raw constructors built there. */
  lemma {:induction false} BaseRowsAgree(t: seq<bool>)
    requires |t| == 2 || |t| == 4
    ensures FromOutputs(t) == SnapshotA.FromOutputs(t)
  {
    if |t| == 2 {
      assert IsPowerOfTwo(2);
      assert Table2(t) == SnapshotA.Table2(t);
    } else {
      assert IsPowerOfTwo(4);
      Table4Agrees(t);
    }
  }

  lemma {:induction false} Table4Agrees(t: seq<bool>)
    requires |t| == 4
    ensures Table4(t) == SnapshotA.Table4(t)
  {
    match (t[0], t[1], t[2], t[3])
    case (false, false, false, false) =>
    case (true, false, false, false) =>
    case (false, true, false, false) =>
    case (true, true, false, false) =>
    case (false, false, true, false) =>
    case (true, false, true, false) =>
    case (false, true, true, false) =>
    case (true, true, true, false) =>
    case (false, false, false, true) =>
    case (true, false, false, true) =>
    case (false, true, false, true) =>
    case (true, true, false, true) =>
    case (false, false, true, true) =>
    case (true, false, true, true) =>
    case (false, true, true, true) =>
    case (true, true, true, true) =>
  }

  /** Two tables of 4 or more outputs of the same length, concatenated, give
      the join of their trees. */
  lemma {:induction false} Step(lo: seq<bool>, hi: seq<bool>)
    requires |lo| == |hi| && ValidLength(|lo|) && |lo| >= 4 && Log2(|lo|) < 256
    ensures Log2(|lo + hi|) == Log2(|lo|) + 1
    ensures FromOutputs(lo).Built? && FromOutputs(hi).Built?
    ensures Highest(FromOutputs(lo).expr) < 255 && Highest(FromOutputs(hi).expr) < 255
    ensures FromOutputs(lo + hi) == Built(Join(FromOutputs(lo).expr, FromOutputs(hi).expr))
  {
    var t := lo + hi;
    assert |t| / 2 == |lo| && t[..|lo|] == lo && t[|lo|..] == hi;
    assert Log2(|t|) == Log2(|lo|) + 1;
    assert ValidLength(|t|) && |t| >= 8;
  }

  /** The tree for the concatenation of two tables of 4 or more outputs keeps
      the trees of both: lowering the indices of the right operands of its two
      conjunctions gives them back. */
  lemma {:induction false} HalvesRecoverable(lo: seq<bool>, hi: seq<bool>)
    requires |lo| == |hi| && ValidLength(|lo|) && |lo| >= 4 && Log2(|lo|) < 256
    ensures Log2(|lo + hi|) == Log2(|lo|) + 1
    ensures var e := FromOutputs(lo + hi).expr;
      && e.Or? && e.lhs.And? && e.rhs.And?
      && e.lhs.lhs == Not(Var(0)) && e.rhs.lhs == Var(0)
      && DecVars(e.lhs.rhs) == FromOutputs(lo).expr
      && DecVars(e.rhs.rhs) == FromOutputs(hi).expr
  {
    Step(lo, hi);
    DecIncRoundTrip(FromOutputs(lo).expr);
    DecIncRoundTrip(FromOutputs(hi).expr);
  }

  /** The recursive step is a sound Shannon expansion: the joined tree
      reproduces the table exactly when the two trees reproduce its halves. */
  lemma {:induction false} JoinReading(a: Expr, b: Expr, t: seq<bool>)
    requires ValidLength(|t|)
    requires Highest(a) < 255 && Highest(b) < 255
    ensures Realises(Join(a, b), t) <==> Realises(a, t[..|t| / 2]) && Realises(b, t[|t| / 2..])
  {
    SplitReading(Join(a, b), a, b, t);
  }

  /** Fifteen of the sixteen closed forms for two variables reproduce their
      table; the colliding row does not. */
  lemma {:induction false} Table4Reading(t: seq<bool>)
    requires |t| == 4
    ensures Realises(Table4(t), t) <==> t != CollidingRow
  {
    assert IsPowerOfTwo(4);
    assert FromOutputs(t) == Built(Table4(t));
    BaseRowsAgree(t);
    SnapshotA.Table4Reading(t);
  }

  /** A table of two outputs is reproduced exactly when it is constant. */
  lemma {:induction false} Reading2(t: seq<bool>)
    requires |t| == 2
    ensures Log2(|t|) == 1
    ensures FromOutputs(t).Built?
    ensures Realises(FromOutputs(t).expr, t) <==> t[0] == t[1]
  {
    BaseRowsAgree(t);
    SnapshotA.Table2Reading(t);
  }

  /** A table of four outputs is reproduced exactly when it is not the
      colliding row. */
  lemma {:induction false} Reading4(t: seq<bool>)
    requires |t| == 4
    ensures Log2(|t|) == 2
    ensures FromOutputs(t).Built?
    ensures Realises(FromOutputs(t).expr, t) <==> NoCollidingBlock(t)
  {
    BaseRowsAgree(t);
    SnapshotA.Table4Reading(t);
    assert Block(t, 0) == t;
  }

  /** Which tables the synthesizer reproduces: a table of two outputs only when
      it is constant, and a longer one exactly when none of its aligned blocks
      of four is the colliding row `[T,T,F,F]`. */
  lemma {:induction false} FromOutputsReading(t: seq<bool>)
    requires ValidLength(|t|) && Log2(|t|) <= 256
    ensures FromOutputs(t).Built?
    ensures Realises(FromOutputs(t).expr, t) <==>
      (if |t| == 2 then t[0] == t[1] else NoCollidingBlock(t))
  {
    if |t| == 2 {
      Reading2(t);
    } else if |t| == 4 {
      Reading4(t);
    } else {
      HalfOfValid(|t|);
      var h := |t| / 2;
      var lo, hi := t[..h], t[h..];
      assert |lo| == h && |hi| == h && lo + hi == t;
      Step(lo, hi);
      FromOutputsReading(lo);
      FromOutputsReading(hi);
      var a, b := FromOutputs(lo).expr, FromOutputs(hi).expr;
      JoinReading(a, b, t);
      NoCollidingBlockSplit(t);
      assert FromOutputs(t) == Built(Join(a, b));
    }
  }
}

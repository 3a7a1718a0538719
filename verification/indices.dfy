/** Variable-index helpers of `Expr`: the lowest and highest index, shifting all
    indices up or down by one, and the variable count. Both snapshots carry the
    same helpers (lib.rs calls the extremes `low_var` and `high_var`). */
module Indices {
  import opened Syntax

  function Min(a: u8, b: u8): u8 {
    if a <= b then a else b
  }

  function Max(a: u8, b: u8): u8 {
    if a <= b then b else a
  }

  /** The smallest variable index occurring in `e` (see `LowestIsLeast`). */
  function Lowest(e: Expr): (r: u8)
    ensures r in VarSet(e)
  {
    match e
    case Var(i) => i
    case Not(x) => Lowest(x)
    case Xor(a, b) => Min(Lowest(a), Lowest(b))
    case And(a, b) => Min(Lowest(a), Lowest(b))
    case Or(a, b) => Min(Lowest(a), Lowest(b))
  }

  /** The largest variable index occurring in `e` (see `HighestIsGreatest`). */
  function Highest(e: Expr): (r: u8)
    ensures r in VarSet(e)
  {
    match e
    case Var(i) => i
    case Not(x) => Highest(x)
    case Xor(a, b) => Max(Highest(a), Highest(b))
    case And(a, b) => Max(Highest(a), Highest(b))
    case Or(a, b) => Max(Highest(a), Highest(b))
  }

  /** `Lowest` is the least index that occurs. */
  lemma {:induction false} LowestIsLeast(e: Expr)
    ensures forall i :: i in VarSet(e) ==> Lowest(e) <= i
  {
    match e
    case Var(_) =>
    case Not(x) => LowestIsLeast(x);
    case Xor(a, b) => LowestIsLeast(a); LowestIsLeast(b);
    case And(a, b) => LowestIsLeast(a); LowestIsLeast(b);
    case Or(a, b) => LowestIsLeast(a); LowestIsLeast(b);
  }

  /** `Highest` is the greatest index that occurs. */
  lemma {:induction false} HighestIsGreatest(e: Expr)
    ensures forall i :: i in VarSet(e) ==> i <= Highest(e)
  {
    forall i | i in VarSet(e) ensures i <= Highest(e) {
      HighestBound(e, i);
    }
  }

  /** An index that occurs is at most `Highest`. */
  lemma {:induction false} HighestBound(e: Expr, i: nat)
    requires i in VarSet(e)
    ensures i <= Highest(e)
  {
    match e
    case Var(_) =>
    case Not(x) => HighestBound(x, i);
    case Xor(a, b) => if i in VarSet(a) { HighestBound(a, i); } else { HighestBound(b, i); }
    case And(a, b) => if i in VarSet(a) { HighestBound(a, i); } else { HighestBound(b, i); }
    case Or(a, b) => if i in VarSet(a) { HighestBound(a, i); } else { HighestBound(b, i); }
  }

  /** Every variable index raised by one; the shape is untouched. The source
      increments a `u8` in place, so an index of 255 would overflow; the
      precondition rules that out. */
  function IncVars(e: Expr): (r: Expr)
    requires Highest(e) < 255
    ensures Erase(r) == Erase(e)
    ensures Lowest(r) == Lowest(e) + 1
    ensures Highest(r) == Highest(e) + 1
  {
    match e
    case Var(i) => Var(i + 1)
    case Not(x) => Not(IncVars(x))
    case Xor(a, b) => Xor(IncVars(a), IncVars(b))
    case And(a, b) => And(IncVars(a), IncVars(b))
    case Or(a, b) => Or(IncVars(a), IncVars(b))
  }

  /** Every variable index lowered by one, but only when no index is 0;
      otherwise the tree is returned unchanged. */
  function DecVars(e: Expr): (r: Expr)
    ensures Lowest(e) == 0 ==> r == e
    ensures Lowest(e) > 0 ==> Erase(r) == Erase(e)
    ensures Lowest(e) > 0 ==> Lowest(r) + 1 == Lowest(e)
  {
    if Lowest(e) > 0 then
      match e
      case Var(i) => Var(i - 1)
      case Not(x) => Not(DecVars(x))
      case Xor(a, b) => Xor(DecVars(a), DecVars(b))
      case And(a, b) => And(DecVars(a), DecVars(b))
      case Or(a, b) => Or(DecVars(a), DecVars(b))
    else
      e
  }

  /** The variable count: one more than the highest index. Every index lies
      below it and the index just below it occurs. */
  function Vars(e: Expr): (n: nat)
    ensures n >= 1
    ensures forall i :: i in VarSet(e) ==> i < n
    ensures n - 1 in VarSet(e)
  {
    HighestIsGreatest(e);
    Highest(e) as nat + 1
  }

  /** Shifting indices up makes room for a new variable 0: the shifted tree reads
      variable i + 1 where the original read variable i. */
  lemma {:induction false} IncVarsEval(e: Expr, b: bool, env: seq<bool>)
    requires Highest(e) < 255
    ensures Eval(IncVars(e), [b] + env) == Eval(e, env)
  {
    match e
    case Var(i) =>
      assert Lookup([b] + env, i + 1) == Lookup(env, i);
    case Not(x) =>
      IncVarsEval(x, b, env);
    case Xor(x, y) =>
      IncVarsEval(x, b, env);
      IncVarsEval(y, b, env);
    case And(x, y) =>
      IncVarsEval(x, b, env);
      IncVarsEval(y, b, env);
    case Or(x, y) =>
      IncVarsEval(x, b, env);
      IncVarsEval(y, b, env);
  }

  /** Lowering undoes raising. */
  lemma {:induction false} DecIncRoundTrip(e: Expr)
    requires Highest(e) < 255
    ensures DecVars(IncVars(e)) == e
  {
    match e
    case Var(i) =>
    case Not(x) =>
      DecIncRoundTrip(x);
    case Xor(x, y) =>
      DecIncRoundTrip(x);
      DecIncRoundTrip(y);
    case And(x, y) =>
      DecIncRoundTrip(x);
      DecIncRoundTrip(y);
    case Or(x, y) =>
      DecIncRoundTrip(x);
      DecIncRoundTrip(y);
  }

  /** Raising undoes lowering whenever lowering did anything. */
  lemma {:induction false} IncDecRoundTrip(e: Expr)
    requires Lowest(e) > 0
    ensures Highest(DecVars(e)) < 255
    ensures IncVars(DecVars(e)) == e
  {
    match e
    case Var(i) =>
    case Not(x) =>
      IncDecRoundTrip(x);
    case Xor(x, y) =>
      IncDecRoundTrip(x);
      IncDecRoundTrip(y);
    case And(x, y) =>
      IncDecRoundTrip(x);
      IncDecRoundTrip(y);
    case Or(x, y) =>
      IncDecRoundTrip(x);
      IncDecRoundTrip(y);
  }

  /** Lowering reads variable i where the original read variable i + 1, so
      the old variable 0, absent from the tree, can take any value. */
  lemma {:induction false} DecVarsEval(e: Expr, b: bool, env: seq<bool>)
    requires Lowest(e) > 0
    ensures Eval(DecVars(e), env) == Eval(e, [b] + env)
  {
    IncDecRoundTrip(e);
    IncVarsEval(DecVars(e), b, env);
  }
}

/** The expression tree shared by both snapshots of the library, and what it means.

    Both snapshots declare the same five-variant enum; the model keeps one datatype
    for the two and gives it a meaning (`Eval`) so that rewrites can be judged
    against it. */
module Syntax {

  /** Variable indices are 8-bit unsigned integers. */
  type u8 = x: nat | x < 256

  /** A Boolean expression over indexed variables. Every compound node owns its
      children, so values of this type are finite trees. */
  datatype Expr =
    | Var(id: u8)
    | Not(inner: Expr)
    | Xor(lhs: Expr, rhs: Expr)
    | And(lhs: Expr, rhs: Expr)
    | Or(lhs: Expr, rhs: Expr)

  /** The value of variable `i` under the assignment `env`; variables past the end
      of `env` read as false, so that every expression has a value under every
      assignment. */
  function Lookup(env: seq<bool>, i: nat): bool {
    if i < |env| then env[i] else false
  }

  /** The truth value of `e` when variable `i` has value `Lookup(env, i)`. */
  function Eval(e: Expr, env: seq<bool>): bool {
    match e
    case Var(i) => Lookup(env, i)
    case Not(x) => !Eval(x, env)
    case Xor(a, b) => Eval(a, env) != Eval(b, env)
    case And(a, b) => Eval(a, env) && Eval(b, env)
    case Or(a, b) => Eval(a, env) || Eval(b, env)
  }

  /** Number of nodes of the tree. */
  function Size(e: Expr): nat {
    match e
    case Var(_) => 1
    case Not(x) => 1 + Size(x)
    case Xor(a, b) => 1 + Size(a) + Size(b)
    case And(a, b) => 1 + Size(a) + Size(b)
    case Or(a, b) => 1 + Size(a) + Size(b)
  }

  /** The indices of the variables that occur in `e`. */
  function VarSet(e: Expr): set<nat> {
    match e
    case Var(i) => {i}
    case Not(x) => VarSet(x)
    case Xor(a, b) => VarSet(a) + VarSet(b)
    case And(a, b) => VarSet(a) + VarSet(b)
    case Or(a, b) => VarSet(a) + VarSet(b)
  }

  /** The shape of `e`: the same tree with every variable index replaced by 0.
      Two trees with equal shapes differ at most in their variable indices. */
  function Erase(e: Expr): Expr {
    match e
    case Var(_) => Var(0)
    case Not(x) => Not(Erase(x))
    case Xor(a, b) => Xor(Erase(a), Erase(b))
    case And(a, b) => And(Erase(a), Erase(b))
    case Or(a, b) => Or(Erase(a), Erase(b))
  }
}

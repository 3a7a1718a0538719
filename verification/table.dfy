/** Truth tables and how a tree is read against one.

    A table of length 2^n lists one output per assignment of n variables. The
    synthesizer splits a table into its first and second half and names the
    selecting variable 0, so under its own recursion variable k is bit n-1-k of
    the row index: the most significant bit comes first. `Bits` builds that
    assignment and `Realises` says that a tree reproduces a table under it. */
module TruthTable {
  import opened Syntax

  function Pow2(n: nat): (p: nat)
    ensures p >= 1
  {
    if n == 0 then 1 else 2 * Pow2(n - 1)
  }

  /** The test behind `usize::is_power_of_two`; zero is not a power of two. */
  predicate IsPowerOfTwo(n: nat) {
    n == 1 || (n >= 2 && n % 2 == 0 && IsPowerOfTwo(n / 2))
  }

  /** Integer base-2 logarithm, rounding down; 0 for 0 and 1. */
  function Log2(n: nat): nat {
    if n < 2 then 0 else 1 + Log2(n / 2)
  }

  /** The lengths `from_outputs` accepts. */
  predicate ValidLength(n: nat) {
    IsPowerOfTwo(n) && n >= 2
  }

  /** The reasons `from_outputs` aborts, in the order it checks them. */
  datatype Panic = NotPowerOfTwo | TooShort

  /** The outcome of `from_outputs`: a tree, or the assertion that stopped it. */
  datatype Synthesis = Built(expr: Expr) | Panicked(reason: Panic)

  /** The assignment for row `i` of a table over `n` variables: entry k is bit
      n-1-k of `i`. */
  function Bits(i: nat, n: nat): (bs: seq<bool>)
    ensures |bs| == n
  {
    if n == 0 then []
    else if i < Pow2(n - 1) then [false] + Bits(i, n - 1)
    else [true] + Bits(i - Pow2(n - 1), n - 1)
  }

  /** The row index an assignment stands for, most significant bit first. */
  function Value(bs: seq<bool>): (v: nat)
    ensures v < Pow2(|bs|)
  {
    if |bs| == 0 then 0
    else (if bs[0] then Pow2(|bs| - 1) else 0) + Value(bs[1..])
  }

  /** `e` reproduces every row of `t`. */
  ghost predicate Realises(e: Expr, t: seq<bool>) {
    forall i :: 0 <= i < |t| ==> Eval(e, Bits(i, Log2(|t|))) == t[i]
  }

  /** The row `[true, true, false, false]`, which both snapshots map to `Var(0)`. */
  const CollidingRow: seq<bool> := [true, true, false, false]

  /** The k-th aligned block of four outputs. */
  function Block(t: seq<bool>, k: nat): seq<bool>
    requires 4 * k + 4 <= |t|
  {
    t[4 * k .. 4 * k + 4]
  }

  /** No aligned block of four outputs is the colliding row. */
  ghost predicate NoCollidingBlock(t: seq<bool>) {
    forall k: nat :: 4 * k + 4 <= |t| ==> Block(t, k) != CollidingRow
  }

  /** `Bits` and `Value` are inverse on the rows of a table over `n` variables. */
  lemma {:induction false} BitsValue(i: nat, n: nat)
    requires i < Pow2(n)
    ensures Value(Bits(i, n)) == i
  {
    if n > 0 {
      if i < Pow2(n - 1) {
        BitsValue(i, n - 1);
        assert Bits(i, n)[1..] == Bits(i, n - 1);
      } else {
        BitsValue(i - Pow2(n - 1), n - 1);
        assert Bits(i, n)[1..] == Bits(i - Pow2(n - 1), n - 1);
      }
    }
  }

  /** Every assignment is the row of its own value. */
  lemma {:induction false} ValueBits(bs: seq<bool>)
    ensures Bits(Value(bs), |bs|) == bs
  {
    if |bs| > 0 {
      ValueBits(bs[1..]);
      assert bs == [bs[0]] + bs[1..];
    }
  }

  /** Powers of two are exactly the values of `Pow2`, and `Log2` recovers the
      exponent. */
  lemma {:induction false} PowerOfTwoLog(n: nat)
    ensures IsPowerOfTwo(n) ==> Pow2(Log2(n)) == n
  {
    if n >= 2 {
      PowerOfTwoLog(n / 2);
    }
  }

  lemma {:induction false} Pow2IsPowerOfTwo(k: nat)
    ensures IsPowerOfTwo(Pow2(k)) && Log2(Pow2(k)) == k
  {
    if k > 0 {
      Pow2IsPowerOfTwo(k - 1);
      assert Pow2(k) / 2 == Pow2(k - 1);
    }
  }

  /** A valid length other than 2 and 4 is at least 8, and splits into two
      valid halves of at least 4 that are multiples of 4. */
  lemma {:induction false} HalfOfValid(n: nat)
    requires ValidLength(n) && n != 2 && n != 4
    ensures n >= 8
    ensures ValidLength(n / 2) && n / 2 >= 4 && n / 2 * 2 == n
    ensures (n / 2) % 4 == 0
    ensures Log2(n / 2) + 1 == Log2(n)
  {
    var h := n / 2;
    EvenPowerOfTwo(n);
    assert n == 2 * h && IsPowerOfTwo(h) && h >= 2;
    EvenPowerOfTwo(h);
    var q := h / 2;
    assert h == 2 * q && IsPowerOfTwo(q) && q >= 2;
    EvenPowerOfTwo(q);
    var r := q / 2;
    assert q == 2 * r;
    assert h == 4 * r;
  }

  /** A power of two of at least 2 is even, halves to a power of two, and is
      2 or at least 4. */
  lemma {:induction false} EvenPowerOfTwo(n: nat)
    requires IsPowerOfTwo(n) && n >= 2
    ensures n % 2 == 0 && IsPowerOfTwo(n / 2) && n / 2 * 2 == n
    ensures n == 2 || n >= 4
  {
  }

  /** Row i of a table of length 2h is read with variable 0 false followed by
      row i of the first half when i < h, and with variable 0 true followed by
      row i - h of the second half otherwise. */
  lemma {:induction false} BitsSplit(h: nat, i: nat)
    requires ValidLength(2 * h) && i < 2 * h
    ensures Log2(2 * h) == Log2(h) + 1
    ensures i < h ==> Bits(i, Log2(2 * h)) == [false] + Bits(i, Log2(h))
    ensures h <= i ==> Bits(i, Log2(2 * h)) == [true] + Bits(i - h, Log2(h))
  {
    assert IsPowerOfTwo(h);
    PowerOfTwoLog(h);
  }

  /** Reading a table of length 2h splits at h: the first half is read with
      variable 0 false, the second with variable 0 true, and the remaining
      variables read each half as a table of its own. */
  lemma {:induction false} SplitReading(e: Expr, a: Expr, b: Expr, t: seq<bool>)
    requires ValidLength(|t|)
    requires forall env :: Eval(a, env) == Eval(e, [false] + env)
    requires forall env :: Eval(b, env) == Eval(e, [true] + env)
    ensures Realises(e, t) <==> Realises(a, t[..|t| / 2]) && Realises(b, t[|t| / 2..])
  {
    var h := |t| / 2;
    var n, m := Log2(|t|), Log2(h);
    assert 2 * h == |t|;
    forall i | 0 <= i < h ensures Eval(e, Bits(i, n)) == Eval(a, Bits(i, m)) {
      BitsSplit(h, i);
    }
    forall i | h <= i < |t| ensures Eval(e, Bits(i, n)) == Eval(b, Bits(i - h, m)) {
      BitsSplit(h, i);
    }
    if Realises(a, t[..h]) && Realises(b, t[h..]) {
      ReadingJoin(e, a, b, t, h, n, m);
    }
    if Realises(e, t) {
      ReadingParts(e, a, b, t, h, n, m);
    }
  }

  lemma {:induction false} ReadingJoin(e: Expr, a: Expr, b: Expr, t: seq<bool>, h: nat, n: nat, m: nat)
    requires |t| == 2 * h && n == Log2(|t|) && m == Log2(h)
    requires forall i :: 0 <= i < h ==> Eval(e, Bits(i, n)) == Eval(a, Bits(i, m))
    requires forall i :: h <= i < |t| ==> Eval(e, Bits(i, n)) == Eval(b, Bits(i - h, m))
    requires Realises(a, t[..h]) && Realises(b, t[h..])
    ensures Realises(e, t)
  {
    var lo, hi := t[..h], t[h..];
    assert Log2(|lo|) == m && Log2(|hi|) == m;
    forall i | 0 <= i < |t| ensures Eval(e, Bits(i, n)) == t[i] {
      if i < h {
        assert Eval(a, Bits(i, m)) == lo[i] == t[i];
      } else {
        assert Eval(b, Bits(i - h, m)) == hi[i - h] == t[i];
      }
    }
  }

  lemma {:induction false} ReadingParts(e: Expr, a: Expr, b: Expr, t: seq<bool>, h: nat, n: nat, m: nat)
    requires |t| == 2 * h && n == Log2(|t|) && m == Log2(h)
    requires forall i :: 0 <= i < h ==> Eval(e, Bits(i, n)) == Eval(a, Bits(i, m))
    requires forall i :: h <= i < |t| ==> Eval(e, Bits(i, n)) == Eval(b, Bits(i - h, m))
    requires Realises(e, t)
    ensures Realises(a, t[..h]) && Realises(b, t[h..])
  {
    var lo, hi := t[..h], t[h..];
    assert Log2(|lo|) == m && Log2(|hi|) == m;
    forall i | 0 <= i < h ensures Eval(a, Bits(i, m)) == lo[i] {
      assert lo[i] == t[i];
      assert Eval(e, Bits(i, n)) == t[i];
    }
    forall j | 0 <= j < h ensures Eval(b, Bits(j, m)) == hi[j] {
      var i := h + j;
      assert hi[j] == t[i];
      assert Eval(e, Bits(i, n)) == t[i];
      assert Eval(e, Bits(i, n)) == Eval(b, Bits(i - h, m));
    }
  }

  /** A table of length 2 is read at the assignments [false] and [true]. */
  lemma {:induction false} Realises2(e: Expr, t: seq<bool>)
    requires |t| == 2
    ensures Realises(e, t) <==> Eval(e, [false]) == t[0] && Eval(e, [true]) == t[1]
  {
    assert Log2(2) == 1;
    assert Bits(0, 1) == [false];
    assert Bits(1, 1) == [true];
  }

  /** A table of length 4 is read at the assignments (v0, v1) = (F,F), (F,T),
      (T,F), (T,T), in that order. */
  lemma {:induction false} Realises4(e: Expr, t: seq<bool>)
    requires |t| == 4
    ensures Realises(e, t) <==>
      && Eval(e, [false, false]) == t[0]
      && Eval(e, [false, true]) == t[1]
      && Eval(e, [true, false]) == t[2]
      && Eval(e, [true, true]) == t[3]
  {
    assert Log2(4) == 2;
    assert Bits(0, 2) == [false, false];
    assert Bits(1, 2) == [false, true];
    assert Bits(2, 2) == [true, false];
    assert Bits(3, 2) == [true, true];
  }

  /** A table of 2^n outputs lists each assignment of n variables exactly once:
      reproducing it means agreeing, at every assignment, with the output in the
      row that assignment stands for. */
  lemma {:induction false} RealisesEveryAssignment(e: Expr, t: seq<bool>, n: nat)
    requires |t| == Pow2(n)
    ensures Realises(e, t) <==> forall bs: seq<bool> :: |bs| == n ==> Eval(e, bs) == t[Value(bs)]
  {
    Pow2IsPowerOfTwo(n);
    if Realises(e, t) {
      forall bs: seq<bool> | |bs| == n ensures Eval(e, bs) == t[Value(bs)] {
        ValueBits(bs);
        assert Eval(e, Bits(Value(bs), Log2(|t|))) == t[Value(bs)];
      }
    }
    if forall bs: seq<bool> :: |bs| == n ==> Eval(e, bs) == t[Value(bs)] {
      forall i | 0 <= i < |t| ensures Eval(e, Bits(i, Log2(|t|))) == t[i] {
        BitsValue(i, n);
        assert Eval(e, Bits(i, n)) == t[Value(Bits(i, n))];
      }
    }
  }

  /** A table free of the colliding row splits into halves free of it. */
  lemma {:induction false} NoCollidingBlockSplit(t: seq<bool>)
    requires ValidLength(|t|) && |t| >= 8
    ensures NoCollidingBlock(t) <==>
      NoCollidingBlock(t[..|t| / 2]) && NoCollidingBlock(t[|t| / 2..])
  {
    HalfOfValid(|t|);
    var h := |t| / 2;
    var q := h / 4;
    assert 4 * q == h;
    var lo, hi := t[..h], t[h..];
    forall k: nat | 4 * k + 4 <= h
      ensures Block(lo, k) == Block(t, k)
      ensures Block(hi, k) == Block(t, q + k)
    {
    }
    if NoCollidingBlock(t) {
      forall k: nat | 4 * k + 4 <= |hi| ensures Block(hi, k) != CollidingRow {
        assert Block(t, q + k) != CollidingRow;
      }
    }
    if NoCollidingBlock(lo) && NoCollidingBlock(hi) {
      forall k: nat | 4 * k + 4 <= |t| ensures Block(t, k) != CollidingRow {
        if 4 * k + 4 <= h {
          assert Block(lo, k) != CollidingRow;
        } else {
          assert Block(hi, k - q) != CollidingRow;
        }
      }
    }
  }
}

/** Bit operations on natural numbers. */
module Bits {
  function Pow2(k: nat): (p: nat)
    ensures p > 0
  {
    if k == 0 then 1 else 2 * Pow2(k - 1)
  }

  lemma {:induction false} Pow2Sum(j: nat, k: nat)
    ensures Pow2(j + k) == Pow2(j) * Pow2(k)
  {
    if j > 0 { Pow2Sum(j - 1, k); }
  }

  function Both(x: nat, y: nat): (r: nat)
    ensures r < 2
  {
    if x == 1 && y == 1 then 1 else 0
  }

  function And(a: nat, b: nat): nat
  {
    if a == 0 || b == 0 then 0 else 2 * And(a / 2, b / 2) + Both(a % 2, b % 2)
  }

  function Xor(a: nat, b: nat): nat
    decreases a + b
  {
    if a == 0 && b == 0 then 0 else 2 * Xor(a / 2, b / 2) + (a % 2 + b % 2) % 2
  }

  /** Without the lowest `k` bits. */
  function Shr(a: nat, k: nat): nat
  {
    if k == 0 then a else Shr(a / 2, k - 1)
  }

  /** The lowest `k` bits. */
  function Low(a: nat, k: nat): nat
  {
    if k == 0 then 0 else 2 * Low(a / 2, k - 1) + a % 2
  }

  lemma {:induction false} LowBit(a: nat, low: nat)
    requires low < 2
    ensures (2 * a + low) / 2 == a && (2 * a + low) % 2 == low
  {
  }

  /** High bits in front of `k` low ones. */
  function Join(high: nat, low: nat, k: nat): nat
  {
    if k == 0 then high else 2 * Join(high, low / 2, k - 1) + low % 2
  }

  lemma {:induction false} JoinIs(high: nat, low: nat, k: nat)
    requires low < Pow2(k)
    ensures Join(high, low, k) == Pow2(k) * high + low
  {
    if k > 0 {
      JoinIs(high, low / 2, k - 1);
      Double(Pow2(k - 1), high);
    }
  }

  lemma {:induction false} ShrJoin(high: nat, low: nat, k: nat)
    ensures Shr(Join(high, low, k), k) == high
  {
    if k > 0 {
      LowBit(Join(high, low / 2, k - 1), low % 2);
      ShrJoin(high, low / 2, k - 1);
    }
  }

  lemma {:induction false} LowJoin(high: nat, low: nat, k: nat)
    requires low < Pow2(k)
    ensures Low(Join(high, low, k), k) == low
  {
    if k > 0 {
      LowBit(Join(high, low / 2, k - 1), low % 2);
      LowJoin(high, low / 2, k - 1);
    }
  }

  lemma {:induction false} Double(q: nat, x: nat)
    ensures 2 * (q * x) == 2 * q * x
  {
  }

  lemma {:induction false} XorStep(a: nat, b: nat, x: nat, y: nat)
    requires x < 2 && y < 2
    ensures Xor(2 * a + x, 2 * b + y) == 2 * Xor(a, b) + (x + y) % 2
  {
    LowBit(a, x);
    LowBit(b, y);
  }

  lemma {:induction false} AndStep(a: nat, b: nat, x: nat, y: nat)
    requires x < 2 && y < 2
    ensures And(2 * a + x, 2 * b + y) == 2 * And(a, b) + Both(x, y)
  {
    LowBit(a, x);
    LowBit(b, y);
    if a == 0 || b == 0 {}
  }

  /** Exclusive or works on high and low bits separately. */
  lemma {:induction false} XorJoin(a: nat, x: nat, b: nat, y: nat, k: nat)
    ensures Xor(Join(a, x, k), Join(b, y, k)) == Join(Xor(a, b), Xor(x, y), k)
  {
    if k > 0 {
      XorJoin(a, x / 2, b, y / 2, k - 1);
      XorStep(Join(a, x / 2, k - 1), Join(b, y / 2, k - 1), x % 2, y % 2);
      XorHalf(x, y);
      assert Join(a, x, k) == 2 * Join(a, x / 2, k - 1) + x % 2 && Join(b, y, k) == 2 * Join(b, y / 2, k - 1) + y % 2;
    }
  }

  lemma {:induction false} XorHalf(x: nat, y: nat)
    ensures Xor(x, y) / 2 == Xor(x / 2, y / 2) && Xor(x, y) % 2 == (x % 2 + y % 2) % 2
  {
    XorStep(x / 2, y / 2, x % 2, y % 2);
    LowBit(Xor(x / 2, y / 2), (x % 2 + y % 2) % 2);
  }

  lemma {:induction false} AndJoin(a: nat, x: nat, b: nat, y: nat, k: nat)
    ensures And(Join(a, x, k), Join(b, y, k)) == Join(And(a, b), And(x, y), k)
  {
    if k > 0 {
      AndJoin(a, x / 2, b, y / 2, k - 1);
      AndStep(Join(a, x / 2, k - 1), Join(b, y / 2, k - 1), x % 2, y % 2);
      AndHalf(x, y);
      assert Join(a, x, k) == 2 * Join(a, x / 2, k - 1) + x % 2 && Join(b, y, k) == 2 * Join(b, y / 2, k - 1) + y % 2;
    }
  }

  lemma {:induction false} AndHalf(x: nat, y: nat)
    ensures And(x, y) / 2 == And(x / 2, y / 2) && And(x, y) % 2 == Both(x % 2, y % 2)
  {
    AndStep(x / 2, y / 2, x % 2, y % 2);
    LowBit(And(x / 2, y / 2), Both(x % 2, y % 2));
  }

  lemma {:induction false} XorSelf(a: nat)
    ensures Xor(a, a) == 0 && Xor(a, 0) == a
    decreases a
  {
    if a > 0 { XorSelf(a / 2); }
  }

  /** A mask of ones keeps all bits under it. */
  lemma {:induction false} AndOnes(a: nat, k: nat)
    requires a < Pow2(k)
    ensures And(a, Pow2(k) - 1) == a
  {
    if k > 0 {
      AndOnes(a / 2, k - 1);
      AndStep(a / 2, Pow2(k - 1) - 1, a % 2, 1);
    }
  }

  lemma {:induction false} XorBelow(a: nat, b: nat, k: nat)
    requires a < Pow2(k) && b < Pow2(k)
    ensures Xor(a, b) < Pow2(k)
    decreases k
  {
    if k > 0 { XorBelow(a / 2, b / 2, k - 1); }
  }
}

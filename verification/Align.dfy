/** Rounding to an alignment, as the layout passes use it (ART's `RoundUp`). */
module Align {

  function RoundDown(x: nat, n: nat): (r: nat)
    requires n > 0
  {
    x - x % n
  }

  /** The least multiple of `n` that is at least `x`. */
  function RoundUp(x: nat, n: nat): (r: nat)
    requires n > 0
    ensures x <= r < x + n
    ensures r % n == 0
    ensures x % n == 0 ==> r == x
  {
    RemainderDropped(x + n - 1, n);
    if x % n == 0 then StepBack(x, n); RoundDown(x + n - 1, n) else RoundDown(x + n - 1, n)
  }

  /** `RoundUp(x, 8)` and `RoundUp(x, 16)` with the alignment as a literal. */
  function RoundUp8(x: nat): (r: nat)
    ensures x <= r < x + 8
  {
    x + 7 - (x + 7) % 8
  }

  function RoundUp16(x: nat): (r: nat)
    ensures x <= r < x + 16
  {
    x + 15 - (x + 15) % 16
  }

  lemma {:induction false} RoundUpLiterals(x: nat)
    ensures RoundUp8(x) == RoundUp(x, 8) && RoundUp16(x) == RoundUp(x, 16)
  {
  }

  lemma {:induction false} RoundUpByFour(x: nat)
    ensures RoundUp8(x) % 4 == 0 && RoundUp16(x) % 4 == 0
  {
    DropByFour(x + 7, 8, (x + 7) / 8, 2);
    DropByFour(x + 15, 16, (x + 15) / 16, 4);
  }

  lemma {:induction false} DropByFour(y: nat, n: nat, q: nat, f: nat)
    requires n == 4 * f && f > 0 && q == y / n
    ensures (y - y % n) % 4 == 0
  {
    assert y - y % n == 4 * (f * q);
    MultipleMod(f * q, 4);
  }

  lemma {:induction false} RemainderDropped(x: nat, n: nat)
    requires n > 0
    ensures (x - x % n) % n == 0
  {
    assert x - x % n == n * (x / n);
    MultipleMod(x / n, n);
  }

  lemma {:induction false} MultipleMod(q: nat, n: nat)
    requires n > 0
    ensures n * q % n == 0
  {
    if q > 0 {
      MultipleMod(q - 1, n);
      assert n * q == n * (q - 1) + n;
      AddMod(n * (q - 1), n);
    }
  }

  lemma {:induction false} AddMod(x: nat, n: nat)
    requires n > 0
    ensures (x + n) % n == x % n
  {
    var q, r := x / n, x % n;
    assert x + n == n * (q + 1) + r;
    DivModUnique(x + n, n, q + 1, r);
  }

  lemma {:induction false} AtLeastOnce(n: nat, k: nat)
    requires k >= 1
    ensures n * k >= n
  {
    if k > 1 {
      AtLeastOnce(n, k - 1);
      assert n * k == n * (k - 1) + n;
    }
  }

  lemma {:induction false} Distribute(n: int, a: int, b: int)
    ensures n * (a - b) == n * a - n * b
  {
  }

  lemma {:induction false} DivModUnique(x: nat, n: nat, q: nat, r: nat)
    requires 0 <= r < n && x == n * q + r
    ensures x / n == q && x % n == r
  {
    var q', r' := x / n, x % n;
    assert x == n * q' + r';
    if q > q' {
      AtLeastOnce(n, q - q');
      Distribute(n, q, q');
    } else if q < q' {
      AtLeastOnce(n, q' - q);
      Distribute(n, q', q);
    }
  }

  lemma {:induction false} StepBack(x: nat, n: nat)
    requires n > 0 && x % n == 0
    ensures (x + n - 1) % n == n - 1
  {
    DivModUnique(x + n - 1, n, x / n, n - 1);
  }
}

/** Bytes, 32-bit words and the little-endian codec the writers use. */
module Bytes {

  type byte = x: int | 0 <= x < 256 witness 0

  const WORD: nat := 0x1_0000_0000

  /** Unsigned 32-bit subtraction, which wraps around. */
  function Sub32(a: nat, b: nat): (r: nat)
    requires a < WORD && b < WORD
    ensures r < WORD
    ensures b <= a ==> r == a - b
    ensures Add32(b, r) == a
  {
    if b <= a then a - b else a + WORD - b
  }

  /** Unsigned 32-bit addition, which wraps around. */
  function Add32(a: nat, b: nat): (r: nat)
    requires a < WORD && b < WORD
    ensures r < WORD
  {
    if a + b < WORD then a + b else a + b - WORD
  }

  /** A 32-bit word as four bytes, lowest first. */
  function Le32(v: nat): (b: seq<byte>)
    requires v < WORD
    ensures |b| == 4
    ensures Read32(b, 0) == v
  {
    var q1 := v / 256;
    var q2 := q1 / 256;
    var q3 := q2 / 256;
    [v % 256, q1 % 256, q2 % 256, q3]
  }

  function Word(b0: int, b1: int, b2: int, b3: int): int
  {
    b0 + 256 * (b1 + 256 * (b2 + 256 * b3))
  }

  function Read32(b: seq<byte>, at: nat): (v: nat)
    requires at + 4 <= |b|
    ensures v < WORD
  {
    Word(b[at], b[at + 1], b[at + 2], b[at + 3])
  }

  /** A word read depends on its own four bytes only. */
  lemma {:induction false} Read32Local(b: seq<byte>, at: nat, c: seq<byte>, at': nat)
    requires at + 4 <= |b| && at' + 4 <= |c|
    requires b[at..at + 4] == c[at'..at' + 4]
    ensures Read32(b, at) == Read32(c, at')
  {
    var s, t := b[at..at + 4], c[at'..at' + 4];
    assert s[0] == b[at] && s[1] == b[at + 1] && s[2] == b[at + 2] && s[3] == b[at + 3];
    assert t[0] == c[at'] && t[1] == c[at' + 1] && t[2] == c[at' + 2] && t[3] == c[at' + 3];
  }

  /** A word determines its four bytes. */
  lemma {:induction false} WordInjective(a: seq<byte>, b: seq<byte>, at: nat)
    requires at + 4 <= |a| && at + 4 <= |b| && Read32(a, at) == Read32(b, at)
    ensures a[at..at + 4] == b[at..at + 4]
  {
    var a0: int, a1: int, a2: int, a3: int := a[at], a[at + 1], a[at + 2], a[at + 3];
    var b0: int, b1: int, b2: int, b3: int := b[at], b[at + 1], b[at + 2], b[at + 3];
    DigitsEqual(a0, a1 + 256 * (a2 + 256 * a3), b0, b1 + 256 * (b2 + 256 * b3));
    DigitsEqual(a1, a2 + 256 * a3, b1, b2 + 256 * b3);
    DigitsEqual(a2, a3, b2, b3);
  }

  lemma {:induction false} DigitsEqual(a: int, x: int, b: int, y: int)
    requires 0 <= a < 256 && 0 <= b < 256 && a + 256 * x == b + 256 * y
    ensures a == b && x == y
  {
  }

  function Zeros(n: nat): (z: seq<byte>)
    ensures |z| == n
  {
    seq(n, _ => 0)
  }

  // ----- Little-endian values of any width -----

  function Pow256(w: nat): nat
  {
    if w == 0 then 1 else 256 * Pow256(w - 1)
  }

  function Enc(v: nat, w: nat): (b: seq<byte>)
    ensures |b| == w
  {
    if w == 0 then [] else [v % 256] + Enc(v / 256, w - 1)
  }

  function Dec(b: seq<byte>): nat
  {
    if b == [] then 0 else b[0] + 256 * Dec(b[1..])
  }

  lemma {:induction false} DecEnc(v: nat, w: nat)
    requires v < Pow256(w)
    ensures Dec(Enc(v, w)) == v
  {
    if w > 0 {
      DecEnc(v / 256, w - 1);
      assert Enc(v, w)[1..] == Enc(v / 256, w - 1);
    }
  }

  lemma {:induction false} DecIsRead32(b: seq<byte>)
    requires |b| == 4
    ensures Dec(b) == Read32(b, 0)
  {
    assert b[1..][1..] == b[2..] && b[2..][1..] == b[3..] && b[3..][1..] == [];
    assert Dec(b[3..]) == b[3];
    assert Dec(b[2..]) == b[2] + 256 * Dec(b[3..]);
    assert Dec(b[1..]) == b[1] + 256 * Dec(b[2..]);
  }
}

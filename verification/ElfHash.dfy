/** The string table, the dynamic symbols and the System V hash table of an ELF file. */
module ElfHash {
  import opened Bits

  // ----- C strings -----

  /** The part of a string that C code sees. */
  function CString(s: seq<bv8>): (r: seq<bv8>)
    ensures 0 !in r && |r| <= |s|
    ensures 0 !in s ==> r == s
  {
    if s == [] || s[0] == 0 then [] else [s[0]] + CString(s[1..])
  }

  /** The name that starts at an offset of a string table. */
  function NameAt(buffer: seq<bv8>, offset: nat): seq<bv8>
    requires offset <= |buffer|
  {
    CString(buffer[offset..])
  }

  lemma {:induction false} CStringStops(s: seq<bv8>, rest: seq<bv8>)
    ensures CString(s + [0] + rest) == CString(s)
  {
    var t := s + [0] + rest;
    if s == [] {
      assert t[0] == 0;
    } else if s[0] != 0 {
      assert t[1..] == s[1..] + [0] + rest;
      CStringStops(s[1..], rest);
    }
  }

  /** A name added to a string table is read back, whatever is added later. */
  lemma {:induction false} AddedNameReads(before: seq<bv8>, name: seq<bv8>, later: seq<bv8>)
    ensures NameAt(before + name + [0] + later, |before|) == CString(name)
  {
    assert (before + name + [0] + later)[|before|..] == name + [0] + later;
    CStringStops(name, later);
  }

  // ----- The hash function -----

  /** The character as a number. */
  function Code(c: bv8): (n: nat)
    ensures n < 256
  {
    c as int
  }

  /** The bits of a word that leave the low 28 are folded back. */
  function Fold(x: nat): nat
  {
    Xor(Xor(x, And(x, 0xf000_0000)), Shr(And(x, 0xf000_0000), 24))
  }

  /** One character, shifted into a word of 32 bits. */
  function HashStep(h: nat, c: bv8): nat
  {
    Fold(Low(16 * h + Code(c), 32))
  }

  function Hash32(s: seq<bv8>): nat
  {
    if s == [] then 0 else HashStep(Hash32(s[..|s| - 1]), s[|s| - 1])
  }

  lemma {:induction false} AsJoin(top: nat, y: nat, x: nat)
    requires x == 0x1000_0000 * top + y && y < 0x1000_0000
    ensures x == Join(top, y, 28) && y < Pow2(28)
  {
    Pow28();
    JoinIs(top, y, 28);
  }

  lemma {:induction false} Pow28()
    ensures Pow2(28) == 0x1000_0000
  {
    assert Pow2(7) == 128;
    Pow2Sum(7, 7);
    Pow2Sum(14, 14);
  }

  lemma {:induction false} TopKept(top: nat, y: nat, x: nat)
    requires top < 16 && y < Pow2(28) && x == Join(top, y, 28)
    ensures And(x, 0xf000_0000) == 0x1000_0000 * top
  {
    Pow28();
    JoinIs(15, 0, 28);
    JoinIs(top, 0, 28);
    AndJoin(top, y, 15, 0, 28);
    FourBits(top);
  }

  lemma {:induction false} FourBits(top: nat)
    requires top < 16
    ensures And(top, 15) == top
  {
    assert Pow2(4) == 16;
    AndOnes(top, 4);
  }

  lemma {:induction false} TopCleared(top: nat, y: nat, x: nat)
    requires y < Pow2(28) && x == Join(top, y, 28)
    ensures Xor(x, 0x1000_0000 * top) == y
  {
    Pow28();
    JoinIs(top, 0, 28);
    JoinIs(0, y, 28);
    XorJoin(top, y, top, 0, 28);
    XorSelf(top);
    XorSelf(y);
  }

  lemma {:induction false} FoldNibble(mid: nat, nib: nat, low: nat, top: nat, y: nat)
    requires top < 16 && nib < 16 && low < 16 && y == 256 * mid + 16 * nib + low
    ensures Xor(y, 16 * top) == 256 * mid + 16 * Xor(nib, top) + low
  {
    assert Pow2(4) == 16;
    var a, b := Join(mid, nib, 4), Join(0, top, 4);
    JoinIs(mid, nib, 4);
    JoinIs(0, top, 4);
    JoinIs(a, low, 4);
    JoinIs(b, 0, 4);
    XorJoin(a, low, b, 0, 4);
    XorJoin(mid, nib, 0, top, 4);
    XorSelf(mid);
    XorSelf(low);
    XorBelow(nib, top, 4);
    JoinIs(mid, Xor(nib, top), 4);
    JoinIs(Xor(a, b), low, 4);
  }

  lemma {:induction false} TopMoved(top: nat)
    ensures Shr(0x1000_0000 * top, 24) == 16 * top
  {
    assert Pow2(6) == 64;
    Pow2Sum(6, 6);
    Pow2Sum(12, 12);
    JoinIs(16 * top, 0, 24);
    ShrJoin(16 * top, 0, 24);
  }

  /** The fold, digit by digit: the top four bits go, and change the second digit from below. */
  lemma {:induction false} FoldDigits(top: nat, mid: nat, nib: nat, low: nat, x: nat)
    requires top < 16 && mid < 0x10_0000 && nib < 16 && low < 16
    requires x == 0x1000_0000 * top + (256 * mid + 16 * nib + low)
    ensures Fold(x) == 256 * mid + 16 * Xor(nib, top) + low
  {
    var y := 256 * mid + 16 * nib + low;
    AsJoin(top, y, x);
    TopKept(top, y, x);
    TopCleared(top, y, x);
    TopMoved(top);
    FoldNibble(mid, nib, low, top, y);
  }

  /** Digits of a number: what is above 32 bits, the top one, five in the middle, and two below. */
  predicate Digits(n: nat, over: nat, top: nat, mid: nat, nib: nat, low: nat)
  {
    && top < 16 && mid < 0x10_0000 && nib < 16 && low < 16
    && n == 0x1_0000_0000 * over + (0x1000_0000 * top + (256 * mid + 16 * nib + low))
  }

  lemma {:induction false} DigitsOf(n: nat) returns (over: nat, top: nat, mid: nat, nib: nat, low: nat)
    ensures Digits(n, over, top, mid, nib, low)
  {
    var a, b, c := n / 16, n / 256, n / 0x1000_0000;
    low, nib := n - 16 * a, a - 16 * b;
    mid, top := b - 0x10_0000 * c, c - 16 * (c / 16);
    over := c / 16;
    assert b / 0x10_0000 == c && a / 16 == b;
  }

  /** One step of the hash in the digits of the shifted number. */
  lemma {:induction false} TheoremHashStep(h: nat, c: bv8, over: nat, top: nat, mid: nat, nib: nat, low: nat)
    requires Digits(16 * h + Code(c), over, top, mid, nib, low)
    ensures HashStep(h, c) == 256 * mid + 16 * Xor(nib, top) + low < 0x1000_0000
  {
    var x := 0x1000_0000 * top + (256 * mid + 16 * nib + low);
    LowWord(over, x);
    FoldDigits(top, mid, nib, low, x);
    NibbleXor(nib, top);
  }

  lemma {:induction false} NibbleXor(nib: nat, top: nat)
    requires nib < 16 && top < 16
    ensures Xor(nib, top) < 16
  {
    assert Pow2(4) == 16;
    XorBelow(nib, top, 4);
  }

  lemma {:induction false} LowWord(over: nat, x: nat)
    requires x < 0x1_0000_0000
    ensures Low(0x1_0000_0000 * over + x, 32) == x
  {
    Pow28();
    assert Pow2(4) == 16;
    Pow2Sum(4, 28);
    JoinIs(over, x, 32);
    LowJoin(over, x, 32);
  }

  lemma {:induction false} HashBelow(s: seq<bv8>)
    ensures Hash32(s) < 0x1000_0000
  {
    if s != [] {
      var h, c := Hash32(s[..|s| - 1]), s[|s| - 1];
      var over, top, mid, nib, low := DigitsOf(16 * h + Code(c));
      TheoremHashStep(h, c, over, top, mid, nib, low);
    }
  }

  /** The characters as digits to base 16, which overlap. */
  function Polynomial(s: seq<bv8>): nat
  {
    if s == [] then 0 else 16 * Polynomial(s[..|s| - 1]) + Code(s[|s| - 1])
  }

  /** A name hashes to its polynomial exactly as long as that has 28 bits. */
  lemma {:induction false} TheoremHashIsPolynomial(s: seq<bv8>)
    ensures Hash32(s) == Polynomial(s) <==> Polynomial(s) < 0x1000_0000
  {
    HashBelow(s);
    if s != [] && Polynomial(s) < 0x1000_0000 {
      var n := |s| - 1;
      TheoremHashIsPolynomial(s[..n]);
      var over, top, mid, nib, low := DigitsOf(Polynomial(s));
      assert over == 0 && top == 0;
      TheoremHashStep(Hash32(s[..n]), s[n], over, top, mid, nib, low);
      XorSelf(nib);
    }
  }

  /** So do all names of five characters, and ASCII names of six. */
  lemma {:induction false} ShortNames(s: seq<bv8>)
    requires |s| <= 5 || (|s| == 6 && forall i :: 0 <= i < |s| ==> s[i] < 128)
    ensures Hash32(s) == Polynomial(s)
  {
    PolynomialBound(s, if |s| <= 5 then 255 else 127);
    assert Power16(5) == 0x10_0000 && Power16(6) == 0x100_0000;
    if |s| <= 5 { Power16Grows(|s|, 5); }
    TheoremHashIsPolynomial(s);
  }

  function Power16(n: nat): nat
  {
    if n == 0 then 1 else 16 * Power16(n - 1)
  }

  lemma {:induction false} Power16Grows(m: nat, n: nat)
    requires m <= n
    ensures Power16(m) <= Power16(n)
  {
    if m < n { Power16Grows(m, n - 1); }
  }

  lemma {:induction false} SixteenTimes(c: nat, p: nat)
    ensures c * (16 * p - 1) == 16 * (c * (p - 1)) + 15 * c
  {
  }

  lemma {:induction false} PolynomialBound(s: seq<bv8>, c: nat)
    requires forall i :: 0 <= i < |s| ==> Code(s[i]) <= c
    ensures 15 * Polynomial(s) <= c * (Power16(|s|) - 1)
  {
    if s != [] {
      var n := |s| - 1;
      PolynomialBound(s[..n], c);
      assert Code(s[n]) <= c;
      SixteenTimes(c, Power16(n));
    }
  }

  lemma {:induction false} PolynomialOf(s: seq<bv8>)
    requires s == [0x6f, 0x61, 0x74, 0x64, 0x61, 0x74]
    ensures Polynomial(s) == 0x758aa84
  {
    var v: seq<int> := [0x6f, 0x751, 0x7584, 0x758a4, 0x758aa1, 0x758aa84];
    assert s[..6] == s && s[..0] == [];
    for i := 0 to 6
      invariant Polynomial(s[..i]) == if i == 0 then 0 else v[i - 1]
    {
      assert s[..i + 1][..i] == s[..i];
    }
  }

  lemma {:induction false} SmallXor()
    ensures Xor(10, 7) == 13
  {
  }

  /** "oatdata", the first dynamic symbol of every oat file: seven characters, of which the first is folded. */
  lemma {:induction false} OatDataHash()
    ensures Hash32([0x6f, 0x61, 0x74, 0x64, 0x61, 0x74, 0x61]) == 0x58aa8d1
  {
    var name: seq<bv8> := [0x6f, 0x61, 0x74, 0x64, 0x61, 0x74, 0x61];
    assert name[..6] == [0x6f, 0x61, 0x74, 0x64, 0x61, 0x74] && name[..7] == name;
    PolynomialOf(name[..6]);
    TheoremHashIsPolynomial(name[..6]);
    HashNext(name, 6);
    LastStep(Hash32(name[..6]));
  }

  lemma {:induction false} LastStep(h: nat)
    requires h == 0x758aa84
    ensures HashStep(h, 0x61) == 0x58aa8d1
  {
    SmallXor();
    TheoremHashStep(h, 0x61, 0, 7, 0x58aa8, 10, 1);
  }

  lemma {:induction false} HashNext(name: seq<bv8>, i: nat)
    requires i < |name|
    ensures Hash32(name[..i + 1]) == HashStep(Hash32(name[..i]), name[i])
  {
    assert name[..i + 1][..i] == name[..i];
  }

  lemma {:induction false} StringNext(name: seq<bv8>, i: nat)
    requires i < |name|
    ensures name[i] != 0 ==> name[..i] + CString(name[i..]) == name[..i + 1] + CString(name[i + 1..])
    ensures name[i] == 0 ==> name[..i] + CString(name[i..]) == name[..i]
  {
    assert name[i..][1..] == name[i + 1..];
  }

  /** The hash of a NUL-terminated name. */
  method ElfHash(name: seq<bv8>) returns (h: nat)
    ensures h == Hash32(CString(name))
  {
    h := 0;
    var i := 0;
    assert name[..0] == [] && name[0..] == name;
    while i < |name| && name[i] != 0
      invariant i <= |name| && CString(name) == name[..i] + CString(name[i..]) && h == Hash32(name[..i])
    {
      HashNext(name, i);
      StringNext(name, i);
      h := HashStep(h, name[i]);
      i := i + 1;
    }
    if i < |name| { StringNext(name, i); } else { assert name[i..] == [] && name[..i] == name; }
  }

  function Bucket(name: seq<bv8>, nbuckets: nat): (b: nat)
    requires nbuckets > 0
    ensures b < nbuckets
  {
    Hash32(CString(name)) % nbuckets
  }

  method BucketOf(name: seq<bv8>, nbuckets: nat) returns (b: nat)
    requires nbuckets > 0
    ensures b == Bucket(name, nbuckets)
  {
    var h := ElfHash(name);
    b := h % nbuckets;
  }

  function NumBuckets(symbols: nat): (n: nat)
    ensures n > 0 && n % 2 == 0
    ensures if symbols < 256 then symbols < 16 * n else symbols - 32 < 32 * n <= symbols + 32
  {
    if symbols < 8 then 2 else if symbols < 32 then 4 else if symbols < 256 then 16
    else (symbols / 32 + 1) / 2 * 2
  }

  // ----- The table as a function of the buckets of the symbols -----

  /** The lowest of the symbol indexes i+1..k in bucket `b`, or 0. Symbol index j has bucket bs[j - 1]. */
  function NextFrom(bs: seq<nat>, b: nat, i: nat, k: nat): (r: nat)
    requires k <= |bs|
    ensures r == 0 || (i < r <= k && bs[r - 1] == b)
    ensures forall j :: i <= j < k && (r == 0 || j < r - 1) ==> bs[j] != b
    decreases k - i
  {
    if i >= k then 0 else if bs[i] == b then i + 1 else NextFrom(bs, b, i + 1, k)
  }

  /** The highest of the symbol indexes 1..k in bucket `b`, or 0. */
  function LastIn(bs: seq<nat>, b: nat, k: nat): (r: nat)
    requires k <= |bs|
    ensures r == 0 || (r <= k && bs[r - 1] == b)
    ensures forall j :: r <= j < k ==> bs[j] != b
  {
    if k == 0 then 0 else if bs[k - 1] == b then k else LastIn(bs, b, k - 1)
  }

  /** Entry `p` behind the two header words once the first `k` symbols are in: buckets, then chains. */
  function Entry(bs: seq<nat>, nb: nat, k: nat, p: nat): nat
    requires k <= |bs| && p < nb + 1 + |bs|
  {
    if p < nb then NextFrom(bs, p, 0, k)
    else if nb < p <= nb + k then NextFrom(bs, bs[p - nb - 1], p - nb, k)
    else 0
  }

  predicate InBuckets(bs: seq<nat>, nb: nat)
  {
    forall i :: 0 <= i < |bs| ==> bs[i] < nb
  }

  predicate IsTable(t: seq<nat>, bs: seq<nat>, nb: nat, k: nat)
    requires k <= |bs|
  {
    |t| == nb + 1 + |bs| && forall p :: 0 <= p < |t| ==> t[p] == Entry(bs, nb, k, p)
  }

  /** The finished table. */
  function Table(bs: seq<nat>, nb: nat): (t: seq<nat>)
    ensures IsTable(t, bs, nb, |bs|)
  {
    seq(nb + 1 + |bs|, p requires 0 <= p < nb + 1 + |bs| => Entry(bs, nb, |bs|, p))
  }

  /** Where the index of symbol k+1 goes: the bucket if it is empty, else the end of its chain. */
  function SlotFor(bs: seq<nat>, nb: nat, k: nat): (p: nat)
    requires k < |bs| && InBuckets(bs, nb)
    ensures p < nb + 1 + k
  {
    var last := LastIn(bs, bs[k], k);
    if last == 0 then bs[k] else nb + last
  }

  lemma {:induction false} EntryStep(bs: seq<nat>, nb: nat, k: nat, p: nat)
    requires k < |bs| && InBuckets(bs, nb) && p < nb + 1 + |bs|
    ensures Entry(bs, nb, k + 1, p) == if p == SlotFor(bs, nb, k) then k + 1 else Entry(bs, nb, k, p)
    ensures p == SlotFor(bs, nb, k) ==> Entry(bs, nb, k, p) == 0
  {
    if p < nb {
      NextStep(bs, p, 0, k);
    } else if nb < p <= nb + k {
      NextStep(bs, bs[p - nb - 1], p - nb, k);
    }
  }

  lemma {:induction false} NextStep(bs: seq<nat>, b: nat, i: nat, k: nat)
    requires i <= k < |bs|
    ensures NextFrom(bs, b, i, k + 1) ==
            if NextFrom(bs, b, i, k) != 0 then NextFrom(bs, b, i, k) else if bs[k] == b then k + 1 else 0
    decreases k - i
  {
    if i < k && bs[i] != b { NextStep(bs, b, i + 1, k); }
  }

  lemma {:induction false} TableStep(t: seq<nat>, bs: seq<nat>, nb: nat, k: nat)
    requires k < |bs| && InBuckets(bs, nb) && IsTable(t, bs, nb, k)
    ensures t[SlotFor(bs, nb, k)] == 0 && IsTable(t[SlotFor(bs, nb, k) := k + 1], bs, nb, k + 1)
  {
    var s := SlotFor(bs, nb, k);
    var t' := t[s := k + 1];
    forall p | 0 <= p < |t'| ensures t'[p] == Entry(bs, nb, k + 1, p) {
      EntryStep(bs, nb, k, p);
    }
    EntryStep(bs, nb, k, s);
  }

  // ----- Every index once -----

  /** Each of the indexes 1..k once and 0 in all other places. */
  ghost predicate EachOnce(t: seq<nat>, k: nat)
  {
    forall v: nat :: multiset(t)[v] == if v == 0 then |t| - k else if v <= k then 1 else 0
  }

  lemma {:induction false} EachOnceStep(t: seq<nat>, k: nat, p: nat)
    requires EachOnce(t, k) && p < |t| && t[p] == 0
    ensures EachOnce(t[p := k + 1], k + 1)
  {
    var t': seq<nat> := t[p := k + 1];
    var zero: nat, next: nat := 0, k + 1;
    forall v: nat ensures multiset(t')[v] == if v == 0 then |t'| - (k + 1) else if v <= k + 1 then 1 else 0 {
      assert multiset(t') == multiset(t) - multiset{zero} + multiset{next};
      assert multiset(t)[v] == if v == 0 then |t| - k else if v <= k then 1 else 0;
    }
  }

  lemma {:induction false} AllZero(t: seq<nat>)
    requires forall p :: 0 <= p < |t| ==> t[p] == 0
    ensures EachOnce(t, 0)
  {
    if t == [] {
      assert multiset(t) == multiset{};
    } else {
      var n := |t| - 1;
      AllZero(t[..n]);
      assert t == t[..n] + [t[n]];
      assert multiset(t) == multiset(t[..n]) + multiset{t[n]};
      forall v: nat ensures multiset(t)[v] == if v == 0 then |t| else 0 {
        assert multiset(t[..n])[v] == if v == 0 then n else 0;
      }
    }
  }

  lemma {:induction false} OnceUpTo(bs: seq<nat>, nb: nat, k: nat) returns (t: seq<nat>)
    requires k <= |bs| && InBuckets(bs, nb)
    ensures IsTable(t, bs, nb, k) && EachOnce(t, k)
  {
    if k == 0 {
      t := seq(nb + 1 + |bs|, _ => 0);
      assert forall p :: 0 <= p < |t| ==> t[p] == Entry(bs, nb, 0, p);
      AllZero(t);
    } else {
      var t' := OnceUpTo(bs, nb, k - 1);
      TableStep(t', bs, nb, k - 1);
      EachOnceStep(t', k - 1, SlotFor(bs, nb, k - 1));
      t := t'[SlotFor(bs, nb, k - 1) := k];
    }
  }

  /** Between buckets and chains every symbol index stands exactly once and the end mark once per bucket plus
      once for the null symbol. */
  lemma {:induction false} TheoremEachIndexOnce(bs: seq<nat>, nb: nat)
    requires InBuckets(bs, nb)
    ensures forall i :: 1 <= i <= |bs| ==> multiset(Table(bs, nb))[i] == 1
    ensures multiset(Table(bs, nb))[0] == nb + 1
  {
    var t := OnceUpTo(bs, nb, |bs|);
    assert t == Table(bs, nb);
  }

  // ----- Building -----

  function Buckets(names: seq<seq<bv8>>, nb: nat): (bs: seq<nat>)
    requires nb > 0
    ensures InBuckets(bs, nb)
    ensures |bs| == |names| && forall i :: 0 <= i < |bs| ==> bs[i] == Bucket(names[i], nb)
  {
    if names == [] then [] else Buckets(names[..|names| - 1], nb) + [Bucket(names[|names| - 1], nb)]
  }

  /** Whatever precedes the table in the array. */
  ghost predicate Holds(hash: array<nat>, bs: seq<nat>, nb: nat, k: nat)
    requires k <= |bs|
    reads hash
  {
    && hash.Length == 2 + nb + 1 + |bs| && IsTable(hash[2..], bs, nb, k)
    && hash[0] == nb && hash[1] == |bs| + 1
  }

  lemma {:induction false} EntryAt(t: seq<nat>, bs: seq<nat>, nb: nat, k: nat, at: nat)
    requires k < |bs| && InBuckets(bs, nb) && IsTable(t, bs, nb, k) && 1 <= at <= k
    ensures t[nb + at] == NextFrom(bs, bs[at - 1], at, k)
    ensures t[nb + at] == 0 && bs[at - 1] == bs[k] ==> nb + at == SlotFor(bs, nb, k)
  {
  }

  /** Where symbol index k+1 goes: its bucket if that is empty, else the end of the chain. No check on the
      way fails. */
  method FindSlot(hash: array<nat>, nb: nat, b: nat, k: nat, ghost bs: seq<nat>) returns (slot: nat)
    requires k < |bs| && InBuckets(bs, nb) && b == bs[k] && Holds(hash, bs, nb, k)
    ensures slot == 2 + SlotFor(bs, nb, k)
  {
    ghost var t: seq<nat> := hash[2..];
    var chain, chainSize := 2 + nb, hash[1];
    assert hash[2 + b] == t[b] == NextFrom(bs, b, 0, k);
    if hash[2 + b] == 0 {
      return 2 + b;
    }
    var at := hash[2 + b];
    assert at < chainSize;
    EntryAt(t, bs, nb, k, at);
    assert hash[chain + at] == t[nb + at];
    while hash[chain + at] != 0
      invariant 1 <= at <= k && bs[at - 1] == b && hash[chain + at] == t[nb + at] == NextFrom(bs, b, at, k)
      decreases k - at
    {
      at := hash[chain + at];
      assert at < chainSize;
      EntryAt(t, bs, nb, k, at);
      assert hash[chain + at] == t[nb + at];
    }
    EntryAt(t, bs, nb, k, at);
    return chain + at;
  }

  lemma {:induction false} SlotIsFree(t: seq<nat>, bs: seq<nat>, nb: nat, k: nat)
    requires k < |bs| && InBuckets(bs, nb) && IsTable(t, bs, nb, k)
    ensures t[SlotFor(bs, nb, k)] == 0 && IsTable(t[SlotFor(bs, nb, k) := k + 1], bs, nb, k + 1)
    ensures t[SlotFor(bs, nb, k) := k + 1][nb + k + 1] == 0
  {
    TableStep(t, bs, nb, k);
  }

  /** Appends symbol index k+1 to its chain; the new end of the chain is an end mark. */
  method Insert(hash: array<nat>, nb: nat, b: nat, k: nat, ghost bs: seq<nat>)
    requires k < |bs| && InBuckets(bs, nb) && b == bs[k] && Holds(hash, bs, nb, k)
    modifies hash
    ensures Holds(hash, bs, nb, k + 1)
  {
    ghost var t: seq<nat> := hash[2..];
    SlotIsFree(t, bs, nb, k);
    var slot := FindSlot(hash, nb, b, k, bs);
    hash[slot] := k + 1;
    assert hash[2..] == t[SlotFor(bs, nb, k) := k + 1];
    assert hash[2 + nb + k + 1] == hash[2..][nb + k + 1] == 0;
  }

  /** Builds the section for the dynamic symbols: two header words, buckets, chains. */
  method BuildHash(names: seq<seq<bv8>>) returns (hash: array<nat>)
    ensures var nb := NumBuckets(|names|);
            IsHash(hash[..], Buckets(names, nb), nb)
  {
    var nb := NumBuckets(|names|);
    ghost var bs := Buckets(names, nb);
    hash := EmptyHash(nb, |names|, bs);
    for i := 0 to |names|
      invariant Holds(hash, bs, nb, i)
    {
      var b := BucketOf(names[i], nb);
      Insert(hash, nb, b, i, bs);
    }
    assert hash[2..] == Table(bs, nb);
    assert hash[..] == hash[..2] + hash[2..];
  }

  method EmptyHash(nb: nat, symbols: nat, ghost bs: seq<nat>) returns (hash: array<nat>)
    requires |bs| == symbols
    ensures fresh(hash) && Holds(hash, bs, nb, 0)
  {
    hash := new nat[2 + nb + 1 + symbols](_ => 0);
    hash[0], hash[1] := nb, symbols + 1;
  }

  // ----- Symbols and lookup -----

  class Strtab {
    var buffer: seq<bv8>

    constructor ()
      ensures buffer == [0]
    {
      buffer := [0];
    }

    method AddName(name: seq<bv8>) returns (offset: nat)
      modifies this
      ensures offset == |old(buffer)| && buffer == old(buffer) + name + [0]
    {
      offset := |buffer|;
      buffer := buffer + name;
      buffer := buffer + [0];
    }
  }

  class Symtab {
    const strtab: Strtab
    var nameIndexes: seq<nat>
    ghost var names: seq<seq<bv8>>

    /** Every symbol's name is found in the string table at its index. */
    ghost predicate Valid()
      reads this, strtab
    {
      && |nameIndexes| == |names| && 0 in strtab.buffer
      && forall i :: 0 <= i < |names| ==>
           nameIndexes[i] <= |strtab.buffer| && forall later ::
               NameAt(strtab.buffer + later, nameIndexes[i]) == CString(names[i])
    }

    constructor (strtab: Strtab)
      requires 0 in strtab.buffer
      ensures Valid() && this.strtab == strtab && names == []
    {
      this.strtab, this.nameIndexes, this.names := strtab, [], [];
    }

    method AddSymbol(name: seq<bv8>)
      requires Valid()
      modifies this, strtab
      ensures Valid() && names == old(names) + [name]
      ensures exists later :: strtab.buffer == old(strtab.buffer) + later
    {
      ghost var before, was, idx := strtab.buffer, names, nameIndexes;
      var index := strtab.AddName(name);
      nameIndexes := nameIndexes + [index];
      names := names + [name];
      assert strtab.buffer == before + (name + [0]);
      assert before[..] == before;
      forall i, later | 0 <= i < |names|
        ensures nameIndexes[i] <= |strtab.buffer| && NameAt(strtab.buffer + later, nameIndexes[i]) == CString(names[i])
      {
        if i < |was| {
          assert strtab.buffer + later == before + (name + [0] + later);
          assert NameAt(before + (name + [0] + later), idx[i]) == CString(was[i]);
        } else {
          AddedNameReads(before, name, later);
        }
      }
    }

    lemma {:induction false} ReadsNames()
      requires Valid()
      ensures NamesIn(strtab.buffer, nameIndexes, names)
    {
      assert strtab.buffer + [] == strtab.buffer;
    }
  }

  /** The lowest symbol index of a name, or 0. */
  ghost predicate IsFirstNamed(names: seq<seq<bv8>>, name: seq<bv8>, index: nat)
  {
    if index == 0 then forall i :: 0 <= i < |names| ==> CString(names[i]) != name
    else index <= |names| && CString(names[index - 1]) == name && forall i :: 0 <= i < index - 1 ==>
        CString(names[i]) != name
  }

  /** Each symbol's name is in the string table. */
  predicate NamesIn(buffer: seq<bv8>, nameIndexes: seq<nat>, names: seq<seq<bv8>>)
  {
    && |nameIndexes| == |names|
    && forall i :: 0 <= i < |names| ==>
         nameIndexes[i] <= |buffer| && NameAt(buffer, nameIndexes[i]) == CString(names[i])
  }

  /** The section holds the table for these buckets. */
  predicate IsHash(hash: seq<nat>, bs: seq<nat>, nb: nat)
  {
    hash == [nb, |bs| + 1] + Table(bs, nb)
  }

  lemma {:induction false} ReadBucket(hash: seq<nat>, bs: seq<nat>, nb: nat, b: nat)
    requires b < nb && IsHash(hash, bs, nb)
    ensures |hash| == nb + |bs| + 3 && hash[2 + b] == NextFrom(bs, b, 0, |bs|)
  {
    assert hash[2 + b] == Table(bs, nb)[b];
  }

  lemma {:induction false} ReadChain(hash: seq<nat>, bs: seq<nat>, nb: nat, i: nat)
    requires IsHash(hash, bs, nb) && 1 <= i <= |bs|
    ensures |hash| == nb + |bs| + 3 && hash[2 + nb + i] == NextFrom(bs, bs[i - 1], i, |bs|)
  {
    assert hash[2 + nb + i] == Table(bs, nb)[nb + i];
  }

  /** Symbols of this name are all in bucket `b`. */
  ghost predicate AllInBucket(names: seq<seq<bv8>>, bs: seq<nat>, name: seq<bv8>, b: nat)
  {
    |bs| == |names| && forall i :: 0 <= i < |names| && CString(names[i]) == name ==> bs[i] == b
  }

  /** No symbol before index `i` has the name. */
  ghost predicate NoneBefore(names: seq<seq<bv8>>, name: seq<bv8>, i: nat)
  {
    i <= |names| && forall j :: 0 <= j < i ==> CString(names[j]) != name
  }

  /** The walk has passed every symbol of bucket `b` up to index `i` and stands at the next one. */
  ghost predicate Walked(names: seq<seq<bv8>>, bs: seq<nat>, name: seq<bv8>, b: nat, i: nat, index: nat)
  {
    AllInBucket(names, bs, name, b) && NoneBefore(names, name, i) && index == NextFrom(bs, b, i, |bs|)
  }

  lemma {:induction false} WalkStep(names: seq<seq<bv8>>, bs: seq<nat>, name: seq<bv8>, b: nat, i: nat, index: nat)
    requires Walked(names, bs, name, b, i, index) && index != 0
    ensures i < index <= |names| && bs[index - 1] == b
    ensures if CString(names[index - 1]) == name then IsFirstNamed(names, name, index)
            else NoneBefore(names, name, index)
  {
  }

  lemma {:induction false} WalkEnd(names: seq<seq<bv8>>, bs: seq<nat>, name: seq<bv8>, b: nat, i: nat)
    requires Walked(names, bs, name, b, i, 0)
    ensures IsFirstNamed(names, name, 0)
  {
  }

  lemma {:induction false} NamesShareBucket(names: seq<seq<bv8>>, nb: nat, name: seq<bv8>)
    requires nb > 0
    ensures AllInBucket(names, Buckets(names, nb), name, Bucket(name, nb))
  {
    forall i | 0 <= i < |names| && CString(names[i]) == name ensures Buckets(names, nb)[i] == Bucket(name, nb) {
      assert CString(name) == name;
    }
  }

  /** Walks the chain of one bucket. */
  method Follow(hash: seq<nat>, nb: nat, b: nat, buffer: seq<bv8>, nameIndexes: seq<nat>, name: seq<bv8>,
                ghost names: seq<seq<bv8>>, ghost bs: seq<nat>)
    returns (index: nat)
    requires NamesIn(buffer, nameIndexes, names) && IsHash(hash, bs, nb) && b < nb && AllInBucket(names, bs, name, b)
    ensures IsFirstNamed(names, name, index)
  {
    ReadBucket(hash, bs, nb, b);
    index := hash[2 + b];
    ghost var i: nat := 0;
    while index != 0
      invariant i <= |bs| && Walked(names, bs, name, b, i, index)
      decreases |bs| - i
    {
      WalkStep(names, bs, name, b, i, index);
      if NameAt(buffer, nameIndexes[index - 1]) == name {
        return;
      }
      i := index;
      ReadChain(hash, bs, nb, i);
      index := hash[2 + nb + index];
    }
    WalkEnd(names, bs, name, b, i);
  }

  /** The lookup that the format documents. */
  method GetSym(hash: seq<nat>, buffer: seq<bv8>, nameIndexes: seq<nat>, name: seq<bv8>, ghost names: seq<seq<bv8>>)
    returns (index: nat)
    requires NamesIn(buffer, nameIndexes, names)
    requires var nb := NumBuckets(|names|); IsHash(hash, Buckets(names, nb), nb)
    ensures IsFirstNamed(names, name, index)
  {
    var nb := hash[0];
    var b := BucketOf(name, nb);
    NamesShareBucket(names, nb, name);
    index := Follow(hash, nb, b, buffer, nameIndexes, name, names, Buckets(names, nb));
  }

  /** Adds dynamic symbols, builds the hash table and looks a name up in what was written. */
  method AddAndFind(names: seq<seq<bv8>>, name: seq<bv8>) returns (index: nat)
    ensures IsFirstNamed(names, name, index)
  {
    var strtab := new Strtab();
    var symtab := new Symtab(strtab);
    for i := 0 to |names|
      invariant symtab.Valid() && symtab.names == names[..i] && symtab.strtab == strtab
      invariant fresh(symtab) && fresh(strtab)
    {
      symtab.AddSymbol(names[i]);
    }
    assert names[..|names|] == names;
    var hash := BuildHash(names);
    symtab.ReadsNames();
    index := GetSym(hash[..], strtab.buffer, symtab.nameIndexes, name, names);
  }
}

/** The record of one class in an oat file: the compiler lays out a slot for each compiled method and a bitmap where
    only some are compiled; the runtime finds a method's slot again from these bytes alone. */
module OatClassTable {
  import opened Align
  import opened Bytes
  import opened CompiledMethods
  import opened Options
  import opened OatVisitors

  type Methods = seq<Option<CompiledMethod>>

  datatype ClassType = AllCompiled | SomeCompiled | NoneCompiled

  function TypeCode(t: ClassType): nat
  {
    match t case AllCompiled => 0 case SomeCompiled => 1 case NoneCompiled => 2
  }

  function TypeOf(methods: Methods): ClassType
  {
    if Compiled(methods) == 0 then NoneCompiled
    else if Compiled(methods) == |methods| then AllCompiled
    else SomeCompiled
  }

  /** Whole 32-bit words. */
  function BitmapSize(methods: Methods): nat
  {
    if TypeOf(methods) == SomeCompiled then (|methods| + 31) / 32 * 4 else 0
  }

  /** Bytes in front of the slots: status, type, and size and words of the bitmap. */
  function SlotsBase(methods: Methods): nat
  {
    4 + (if TypeOf(methods) == SomeCompiled then 4 + BitmapSize(methods) else 0)
  }

  function SizeOf(methods: Methods): nat
  {
    2 + 2 + (if BitmapSize(methods) == 0 then 0 else 4) + BitmapSize(methods) + 4 * Compiled(methods)
  }

  /** The offset of a method's slot from the start of the class record, 0 for a method without code. */
  function SlotOffset(methods: Methods, i: nat): nat
    requires i < |methods|
  {
    if methods[i].None? then 0 else SlotsBase(methods) + 4 * Compiled(methods[..i])
  }

  /** Sets up a class record: where each method's slot is, and which bits of the bitmap are set. */
  method NewOatClass(methods: Methods, numCompiled: nat)
    returns (classType: ClassType, slots: seq<nat>, bits: array<bool>)
    requires numCompiled == Compiled(methods)
    ensures classType == TypeOf(methods) && fresh(bits) && bits.Length == 8 * BitmapSize(methods)
    ensures |slots| == |methods| && forall i :: 0 <= i < |methods| ==> slots[i] == SlotOffset(methods, i)
    ensures classType == SomeCompiled ==>
              |methods| <= bits.Length && forall i :: 0 <= i < bits.Length ==>
                  bits[i] == (i < |methods| && methods[i].Some?)
  {
    classType := if numCompiled == 0 then NoneCompiled else if numCompiled == |methods| then AllCompiled
    else SomeCompiled;
    var offset := 2 + 2;
    var size := 0;
    if classType == SomeCompiled {
      size := (|methods| + 31) / 32 * 4;
      offset := offset + 4 + size;
    }
    bits := new bool[8 * size](_ => false);
    slots := [];
    assert methods[..0] == [];
    for i := 0 to |methods|
      invariant |slots| == i && forall j :: 0 <= j < i ==> slots[j] == SlotOffset(methods, j)
      invariant offset == SlotsBase(methods) + 4 * Compiled(methods[..i])
      invariant classType == SomeCompiled ==> forall j :: 0 <= j < bits.Length ==>
                  bits[j] == (j < i && methods[j].Some?)
    {
      CompiledGrows(methods, i);
      if methods[i].None? {
        slots := slots + [0];
      } else {
        slots := slots + [offset];
        offset := offset + 4;
        if classType == SomeCompiled { bits[i] := true; }
      }
    }
  }

  // ----- Bits in bytes -----

  /** The value of some bits, lowest first. */
  function Pack(bits: seq<bool>): nat
  {
    if bits == [] then 0 else (if bits[0] then 1 else 0) + 2 * Pack(bits[1..])
  }

  function BitOf(v: nat, i: nat): bool
  {
    if i == 0 then v % 2 == 1 else BitOf(v / 2, i - 1)
  }

  lemma {:induction false} PackBit(bits: seq<bool>, i: nat)
    requires i < |bits|
    ensures BitOf(Pack(bits), i) == bits[i]
  {
    if i > 0 { PackBit(bits[1..], i - 1); }
  }

  lemma {:induction false} PackByte(bits: seq<bool>)
    requires |bits| == 8
    ensures Pack(bits) < 256
  {
    PackBound(bits);
    assert Pow2(8) == 256;
  }

  function Pow2(k: nat): nat
  {
    if k == 0 then 1 else 2 * Pow2(k - 1)
  }

  lemma {:induction false} PackBound(bits: seq<bool>)
    ensures Pack(bits) < Pow2(|bits|)
  {
    if bits != [] { PackBound(bits[1..]); }
  }

  /** Bits eight to a byte; 32-bit words in little-endian order come to the same. */
  function PackBytes(bits: seq<bool>): (b: seq<byte>)
    requires |bits| % 8 == 0
    ensures |b| * 8 == |bits|
  {
    if bits == [] then []
    else
      PackByte(bits[..8]);
      [Pack(bits[..8])] + PackBytes(bits[8..])
  }

  function BitIn(bytes: seq<byte>, i: nat): bool
    requires i < 8 * |bytes|
  {
    BitOf(bytes[i / 8], i % 8)
  }

  lemma {:induction false} PackBytesBit(bits: seq<bool>, i: nat)
    requires |bits| % 8 == 0 && i < |bits|
    ensures BitIn(PackBytes(bits), i) == bits[i]
  {
    if i < 8 {
      PackBit(bits[..8], i);
    } else {
      PackBytesBit(bits[8..], i - 8);
    }
  }

  function MethodBits(methods: Methods): (bits: seq<bool>)
    ensures |bits| == 8 * BitmapSize(methods) && |bits| % 8 == 0
    ensures forall i :: 0 <= i < |bits| ==> bits[i] == (i < |methods| && methods[i].Some?)
  {
    seq(8 * BitmapSize(methods), i requires 0 <= i => i < |methods| && methods[i].Some?)
  }

  // ----- The bytes of a class record -----

  function Slots(offsets: seq<nat>): (b: seq<byte>)
    ensures |b| == 4 * |offsets|
  {
    if offsets == [] then [] else Slots(offsets[..|offsets| - 1]) + Enc(offsets[|offsets| - 1], 4)
  }

  function Prefix(status: nat, methods: Methods): (b: seq<byte>)
    ensures |b| == SlotsBase(methods)
  {
    Enc(status, 2) + Enc(TypeCode(TypeOf(methods)), 2) +
    (if TypeOf(methods) == SomeCompiled then Enc(BitmapSize(methods), 4) + PackBytes(MethodBits(methods)) else [])
  }

  /** `offsets` are the code offsets of the compiled methods, in order. */
  function Record(status: nat, methods: Methods, offsets: seq<nat>): (b: seq<byte>)
    requires |offsets| == Compiled(methods)
    ensures |b| == SizeOf(methods)
  {
    Prefix(status, methods) + Slots(offsets)
  }

  // ----- Finding a slot again -----

  function CountBits(bytes: seq<byte>, n: nat): nat
    requires n <= 8 * |bytes|
  {
    if n == 0 then 0 else CountBits(bytes, n - 1) + (if BitIn(bytes, n - 1) then 1 else 0)
  }

  /** The number of bits set from `lo` up to `hi`. */
  method PopCount(bytes: seq<byte>, lo: nat, hi: nat) returns (count: nat)
    requires lo <= hi <= 8 * |bytes|
    ensures CountBits(bytes, lo) + count == CountBits(bytes, hi)
  {
    count := 0;
    for i := lo to hi
      invariant CountBits(bytes, lo) + count == CountBits(bytes, i)
    {
      if BitIn(bytes, i) { count := count + 1; }
    }
  }

  /** Counts the bits below `end`, a word at a time and then what is left. */
  method NumSetBits(bytes: seq<byte>, end: nat) returns (count: nat)
    requires end <= 8 * |bytes|
    ensures count == CountBits(bytes, end)
  {
    count := 0;
    var wordEnd := end / 32;
    for word := 0 to wordEnd
      invariant count == CountBits(bytes, 32 * word)
    {
      var bits := PopCount(bytes, 32 * word, 32 * word + 32);
      count := count + bits;
    }
    if end % 32 != 0 {
      var bits := PopCount(bytes, 32 * wordEnd, end);
      count := count + bits;
    }
  }

  /** `bytes` is the bitmap of the methods. */
  predicate IsBitmap(methods: Methods, bytes: seq<byte>)
  {
    && |methods| <= 8 * |bytes|
    && forall i :: 0 <= i < |methods| ==> BitIn(bytes, i) == methods[i].Some?
  }

  lemma {:induction false} PackedBits(methods: Methods, bits: seq<bool>)
    requires |bits| % 8 == 0 && |methods| <= |bits|
    requires forall i :: 0 <= i < |methods| ==> bits[i] == methods[i].Some?
    ensures IsBitmap(methods, PackBytes(bits))
  {
    var bytes := PackBytes(bits);
    forall i | 0 <= i < |methods| ensures BitIn(bytes, i) == methods[i].Some? {
      PackBytesBit(bits, i);
    }
  }

  lemma {:induction false} WordsCover(n: nat)
    ensures n <= 8 * ((n + 31) / 32 * 4) && 8 * ((n + 31) / 32 * 4) % 8 == 0
  {
  }

  lemma {:induction false} BitsFit(methods: Methods)
    requires TypeOf(methods) == SomeCompiled
    ensures |MethodBits(methods)| % 8 == 0 && |methods| <= |MethodBits(methods)|
  {
    WordsCover(|methods|);
    assert BitmapSize(methods) == (|methods| + 31) / 32 * 4;
  }

  lemma {:induction false} PackedBitmap(methods: Methods)
    requires TypeOf(methods) == SomeCompiled
    ensures IsBitmap(methods, PackBytes(MethodBits(methods)))
  {
    BitsFit(methods);
    PackedBits(methods, MethodBits(methods));
  }

  lemma {:induction false} CountIsCompiled(methods: Methods, bytes: seq<byte>, i: nat)
    requires IsBitmap(methods, bytes) && i <= |methods|
    ensures CountBits(bytes, i) == Compiled(methods[..i])
  {
    if i > 0 {
      CountIsCompiled(methods, bytes, i - 1);
      CompiledGrows(methods, i - 1);
    } else {
      assert methods[..0] == [];
    }
  }

  lemma {:induction false} SlotAt(offsets: seq<nat>, k: nat)
    requires k < |offsets|
    ensures Slots(offsets)[4 * k..4 * k + 4] == Enc(offsets[k], 4)
  {
    var n := |offsets| - 1;
    if k < n {
      SlotAt(offsets[..n], k);
      assert Slots(offsets)[4 * k..4 * k + 4] == Slots(offsets[..n])[4 * k..4 * k + 4];
    }
  }

  lemma {:induction false} RecordSlot(status: nat, methods: Methods, offsets: seq<nat>, k: nat)
    requires |offsets| == Compiled(methods) && k < |offsets|
    ensures var at, b := SlotsBase(methods) + 4 * k, Record(status, methods, offsets);
            at + 4 <= |b| && b[at..at + 4] == Enc(offsets[k], 4)
  {
    SlotAt(offsets, k);
    var b, p := Record(status, methods, offsets), Prefix(status, methods);
    assert b[|p| + 4 * k..|p| + 4 * k + 4] == Slots(offsets)[4 * k..4 * k + 4];
  }

  lemma {:induction false} RecordType(status: nat, methods: Methods, offsets: seq<nat>)
    requires |offsets| == Compiled(methods)
    ensures Record(status, methods, offsets)[2..4] == Enc(TypeCode(TypeOf(methods)), 2)
  {
    assert Record(status, methods, offsets)[2..4] == Prefix(status, methods)[2..4];
  }

  lemma {:induction false} RecordBitmap(status: nat, methods: Methods, offsets: seq<nat>)
    requires |offsets| == Compiled(methods) && TypeOf(methods) == SomeCompiled
    ensures var b, n := Record(status, methods, offsets), BitmapSize(methods);
            8 + n <= |b| && b[4..8] == Enc(n, 4) && b[8..8 + n] == PackBytes(MethodBits(methods))
  {
    var b, p, n := Record(status, methods, offsets), Prefix(status, methods), BitmapSize(methods);
    assert b[4..8] == p[4..8] && b[8..8 + n] == p[8..8 + n];
  }

  lemma {:induction false} TypeCodeFits(t: ClassType)
    ensures Dec(Enc(TypeCode(t), 2)) == TypeCode(t)
  {
    assert Pow256(2) == 0x1_0000;
    DecEnc(TypeCode(t), 2);
  }

  lemma {:induction false} WordFits(v: nat)
    requires v < WORD
    ensures Dec(Enc(v, 4)) == v
  {
    assert Pow256(4) == WORD;
    DecEnc(v, 4);
  }

  lemma {:induction false} SameInFront(a: seq<byte>, b: seq<byte>, at: nat, n: nat)
    requires a <= b && at + n <= |a|
    ensures b[at..at + n] == a[at..at + n]
  {
  }

  lemma {:induction false} SlotBytes(record: seq<byte>, at: nat, status: nat, methods: Methods, offsets: seq<nat>,
                                     k: nat)
    requires |offsets| == Compiled(methods) && k < |offsets| && Record(status, methods, offsets) <= record
    requires at == SlotsBase(methods) + 4 * k
    ensures at + 4 <= |record| && record[at..at + 4] == Enc(offsets[k], 4)
  {
    RecordSlot(status, methods, offsets, k);
    SameInFront(Record(status, methods, offsets), record, at, 4);
  }

  /** Slot `k` read from a record. */
  method ReadSlot(record: seq<byte>, at: nat, ghost status: nat, ghost methods: Methods, ghost offsets: seq<nat>,
                  ghost k: nat) returns (v: nat)
    requires |offsets| == Compiled(methods) && k < |offsets| && Record(status, methods, offsets) <= record
    requires at == SlotsBase(methods) + 4 * k && offsets[k] < WORD
    ensures v == offsets[k]
  {
    SlotBytes(record, at, status, methods, offsets, k);
    WordFits(offsets[k]);
    v := Dec(record[at..at + 4]);
  }

  /** What the slots must hold of method `i`. */
  ghost function CodeOffset(methods: Methods, offsets: seq<nat>, i: nat): Option<nat>
    requires |offsets| == Compiled(methods) && i < |methods|
  {
    CompiledGrows(methods, i);
    if methods[i].None? then None else Some(offsets[Compiled(methods[..i])])
  }

  lemma {:induction false} AllOrNone(methods: Methods, i: nat)
    requires i <= |methods|
    ensures Compiled(methods[..i]) <= i
    ensures TypeOf(methods) == NoneCompiled ==> forall j :: 0 <= j < i ==> methods[j].None?
    ensures TypeOf(methods) == AllCompiled ==> Compiled(methods[..i]) == i && forall j :: 0 <= j < i ==>
              methods[j].Some?
  {
    CompiledBounds(methods, i);
  }

  lemma {:induction false} CompiledBounds(methods: Methods, i: nat)
    requires i <= |methods|
    ensures Compiled(methods[..i]) <= i && Compiled(methods) <= Compiled(methods[..i]) + (|methods| - i)
    ensures Compiled(methods) == 0 ==> forall j :: 0 <= j < i ==> methods[j].None?
    ensures Compiled(methods) == |methods| ==> Compiled(methods[..i]) == i && forall j :: 0 <= j < i ==>
              methods[j].Some?
  {
    RestBound(methods, i);
    if i > 0 {
      CompiledBounds(methods, i - 1);
      CompiledGrows(methods, i - 1);
    } else {
      assert methods[..0] == [];
    }
  }

  /** The type of a class record tells whether all of its methods are compiled, or none. */
  lemma {:induction false} TheoremTypeTells(methods: Methods)
    ensures TypeOf(methods) == NoneCompiled <==> forall i :: 0 <= i < |methods| ==> methods[i].None?
    ensures TypeOf(methods) == AllCompiled <==>
            methods != [] && forall i :: 0 <= i < |methods| ==> methods[i].Some?
  {
    CompiledBounds(methods, |methods|);
    assert methods[..|methods|] == methods;
    if forall i :: 0 <= i < |methods| ==> methods[i].None? { AllAlike(methods, false); }
    if forall i :: 0 <= i < |methods| ==> methods[i].Some? { AllAlike(methods, true); }
  }

  lemma {:induction false} AllAlike(methods: Methods, some: bool)
    requires forall i :: 0 <= i < |methods| ==> methods[i].Some? == some
    ensures Compiled(methods) == if some then |methods| else 0
  {
    if methods != [] { AllAlike(methods[..|methods| - 1], some); }
  }

  lemma {:induction false} RestBound(methods: Methods, i: nat)
    requires i <= |methods|
    ensures Compiled(methods) <= Compiled(methods[..i]) + (|methods| - i)
    decreases |methods| - i
  {
    if i < |methods| {
      RestBound(methods, i + 1);
      CompiledGrows(methods, i);
    } else {
      assert methods[..i] == methods;
    }
  }

  lemma {:induction false} TwoBytes(v: nat)
    ensures Dec(Enc(v, 2)) == v % 0x1_0000
  {
    var b := Enc(v, 2);
    assert b[1..] == Enc(v / 256, 1) && b[1..][1..] == [];
    assert Dec(b[1..]) == v / 256 % 256;
    assert v == 256 * (v / 256) + v % 256 && v / 256 == 256 * (v / 0x1_0000) + v / 256 % 256;
  }

  lemma {:induction false} RecordStatus(record: seq<byte>, status: nat, methods: Methods, offsets: seq<nat>)
    requires |offsets| == Compiled(methods) && Record(status, methods, offsets) <= record
    ensures |record| >= 4 && Dec(record[0..2]) == status % 0x1_0000
  {
    var rec := Record(status, methods, offsets);
    assert rec[0..2] == Prefix(status, methods)[0..2] == Enc(status, 2);
    SameInFront(rec, record, 0, 2);
    TwoBytes(status);
  }

  /** The status in a class record. */
  method GetStatus(record: seq<byte>, ghost status: nat, ghost methods: Methods, ghost offsets: seq<nat>)
    returns (r: nat)
    requires |offsets| == Compiled(methods) && Record(status, methods, offsets) <= record
    ensures r == status % 0x1_0000
  {
    RecordStatus(record, status, methods, offsets);
    r := Dec(record[0..2]);
  }

  /** The runtime's lookup in the file from a class record on: the code offset of every compiled method, and nothing
      for the others. */
  method GetOatMethodOffsets(record: seq<byte>, i: nat, ghost status: nat, ghost methods: Methods,
                             ghost offsets: seq<nat>) returns (r: Option<nat>)
    requires |offsets| == Compiled(methods) && Record(status, methods, offsets) <= record && i < |methods|
    requires BitmapSize(methods) < WORD && (CodeOffset(methods, offsets, i).Some? ==>
                                            CodeOffset(methods, offsets, i).value < WORD)
    ensures r == CodeOffset(methods, offsets, i)
  {
    ghost var rec := Record(status, methods, offsets);
    RecordType(status, methods, offsets);
    SameInFront(rec, record, 2, 2);
    TypeCodeFits(TypeOf(methods));
    AllOrNone(methods, i);
    AllOrNone(methods, i + 1);
    CompiledGrows(methods, i);
    var classType := Dec(record[2..4]);
    if classType == 2 {
      return None;
    }
    var index, base := i, 4;
    if classType == 1 {
      RecordBitmap(status, methods, offsets);
      WordFits(BitmapSize(methods));
      SameInFront(rec, record, 4, 4);
      SameInFront(rec, record, 8, BitmapSize(methods));
      var size := Dec(record[4..8]);
      var bitmap := record[8..8 + size];
      PackedBitmap(methods);
      CountIsCompiled(methods, bitmap, i);
      if !BitIn(bitmap, i) {
        return None;
      }
      index := NumSetBits(bitmap, i);
      base := 8 + size;
    }
    var v := ReadSlot(record, base + 4 * index, status, methods, offsets, index);
    return Some(v);
  }
}

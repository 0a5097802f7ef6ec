/** The open-addressed table from native offsets to reference bitmaps: the compiler's builder and the
    runtime's lookup. */
module GcMap {
  import opened Align
  import opened Bytes

  // ----- The width of an offset -----

  function BitLength(v: nat): nat
  {
    if v == 0 then 0 else 1 + BitLength(v / 2)
  }

  function Pow2(k: nat): nat
  {
    if k == 0 then 1 else 2 * Pow2(k - 1)
  }

  lemma {:induction false} BitLengthIs(v: nat, k: nat)
    ensures BitLength(v) <= k <==> v < Pow2(k)
    decreases k
  {
    if k > 0 && v > 0 { BitLengthIs(v / 2, k - 1); }
    if k > 0 && v == 0 { BitLengthIs(0, k - 1); }
  }

  /** The bytes needed for offsets up to `max`: four less one per eight leading zero bits. */
  function OffsetWidth(entries: nat, max: nat): (w: nat)
    requires max < WORD
  {
    var clz := 32 - BitLength(max);
    if entries != 0 && max != 0 then 4 - clz / 8 else 0
  }

  lemma {:induction false} OffsetWidthFits(entries: nat, max: nat)
    requires max < WORD && entries != 0
    ensures var w := OffsetWidth(entries, max); 0 <= w <= 4 && max < Pow256(w) && (w > 0 ==> max >= Pow256(w - 1))
  {
    assert Pow2(8) == 256 && Pow2(16) == 0x1_0000 && Pow2(24) == 0x100_0000 && Pow2(32) == WORD;
    assert Pow256(0) == 1 && Pow256(1) == 256 && Pow256(2) == 0x1_0000 && Pow256(3) == 0x100_0000 && Pow256(4) == WORD;
    BitLengthIs(max, 8);
    BitLengthIs(max, 16);
    BitLengthIs(max, 24);
    BitLengthIs(max, 32);
  }

  // ----- The header -----

  function Header(w: nat, refsWidth: nat, entries: nat): (h: seq<byte>)
    requires w < 8 && refsWidth < 0x2000 && entries < 0x1_0000
    ensures |h| == 4
  {
    [w + refsWidth % 32 * 8, refsWidth / 32, entries % 256, entries / 256]
  }

  function Pair(low: int, high: int): int
  {
    low + 256 * high
  }

  function NativeOffsetWidth(data: seq<byte>): nat
    requires |data| >= 4
  {
    data[0] % 8
  }

  function RegWidth(data: seq<byte>): nat
    requires |data| >= 4
  {
    Pair(data[0], data[1]) / 8
  }

  function NumEntries(data: seq<byte>): nat
    requires |data| >= 4
  {
    Pair(data[2], data[3])
  }

  lemma {:induction false} HeaderRoundTrip(w: nat, refsWidth: nat, entries: nat)
    requires w < 8 && refsWidth < 0x2000 && entries < 0x1_0000
    ensures var h := Header(w, refsWidth, entries);
            NativeOffsetWidth(h) == w && RegWidth(h) == refsWidth && NumEntries(h) == entries
  {
  }

  // ----- Probing -----

  datatype Slot = Free | Used(offset: nat, refs: seq<byte>)

  /** `d` places on from `h`, around the end. */
  function Around(n: nat, h: nat, d: nat): (i: nat)
    requires h < n && d < n
    ensures i < n
  {
    if h + d < n then h + d else h + d - n
  }

  function Distance(n: nat, h: nat, i: nat): (d: nat)
    requires h < n && i < n
    ensures d < n && Around(n, h, d) == i
  {
    if h <= i then i - h else i + n - h
  }

  lemma {:induction false} NextAround(n: nat, i: nat)
    requires i < n
    ensures (i + 1) % n == if i + 1 == n then 0 else i + 1
  {
    if i + 1 < n { DivModUnique(i + 1, n, 0, i + 1); } else { DivModUnique(n, n, 1, 0); }
  }

  /** Every slot from `h` up to but not including `i` is in use. */
  predicate Chained(slots: seq<Slot>, h: nat, i: nat)
    requires h < |slots| && i < |slots|
  {
    forall d :: 0 <= d < Distance(|slots|, h, i) ==> slots[Around(|slots|, h, d)].Used?
  }

  ghost predicate Reachable(slots: seq<Slot>, hash: nat -> nat)
  {
    forall i :: 0 <= i < |slots| && slots[i].Used? ==> Chained(slots, hash(slots[i].offset) % |slots|, i)
  }

  predicate Distinct(slots: seq<Slot>)
  {
    forall i, j :: 0 <= i < j < |slots| && slots[i].Used? && slots[j].Used? ==> slots[i].offset != slots[j].offset
  }

  predicate Absent(slots: seq<Slot>, offset: nat)
  {
    forall i :: 0 <= i < |slots| && slots[i].Used? ==> slots[i].offset != offset
  }

  function UsedCount(slots: seq<Slot>): nat
  {
    if slots == [] then 0 else UsedCount(slots[..|slots| - 1]) + (if slots[|slots| - 1].Used? then 1 else 0)
  }

  lemma {:induction false} SomeFree(slots: seq<Slot>) returns (i: nat)
    requires UsedCount(slots) < |slots|
    ensures i < |slots| && slots[i].Free?
  {
    var n := |slots| - 1;
    if slots[n].Free? { i := n; } else { i := SomeFree(slots[..n]); }
  }

  lemma {:induction false} CountUse(slots: seq<Slot>, i: nat, s: Slot)
    requires i < |slots| && slots[i].Free? && s.Used?
    ensures UsedCount(slots[i := s]) == UsedCount(slots) + 1
  {
    var n := |slots| - 1;
    if i < n {
      CountUse(slots[..n], i, s);
      assert slots[i := s][..n] == slots[..n][i := s];
    } else {
      assert slots[i := s][..n] == slots[..n];
    }
  }

  /** A new entry placed in the first free slot of its chain keeps every entry reachable. */
  lemma {:induction false} InsertKeeps(slots: seq<Slot>, hash: nat -> nat, i: nat, s: Slot)
    requires Reachable(slots, hash) && Distinct(slots) && i < |slots| && slots[i].Free? && s.Used?
    requires Absent(slots, s.offset) && Chained(slots, hash(s.offset) % |slots|, i)
    ensures Reachable(slots[i := s], hash) && Distinct(slots[i := s])
  {
    var slots' := slots[i := s];
    forall j | 0 <= j < |slots'| && slots'[j].Used? ensures Chained(slots', hash(slots'[j].offset) % |slots'|, j) {
      ChainGrows(slots, i, s, hash(slots'[j].offset) % |slots'|, j);
    }
  }

  lemma {:induction false} ChainGrows(slots: seq<Slot>, i: nat, s: Slot, h: nat, j: nat)
    requires i < |slots| && s.Used? && h < |slots| && j < |slots| && Chained(slots, h, j)
    ensures Chained(slots[i := s], h, j)
  {
    var slots' := slots[i := s];
    forall d | 0 <= d < Distance(|slots'|, h, j) ensures slots'[Around(|slots'|, h, d)].Used? {
      assert slots[Around(|slots|, h, d)].Used?;
    }
  }

  // ----- The bytes of the table -----

  function EntryAt(i: nat, width: nat): nat
  {
    4 + i * width
  }

  lemma {:induction false} EntryInside(i: nat, n: nat, width: nat)
    requires i < n
    ensures EntryAt(i, width) + width <= EntryAt(n, width)
  {
    AtLeastOnce(width, n - i);
    Distribute(width, n, i);
  }

  lemma {:induction false} EntriesApart(i: nat, j: nat, width: nat)
    requires i != j
    ensures EntryAt(i, width) + width <= EntryAt(j, width) || EntryAt(j, width) + width <= EntryAt(i, width)
  {
    if i < j { EntryInside(i, j, width); } else { EntryInside(j, i, width); }
  }

  predicate Stored(t: seq<byte>, w: nat, r: nat, i: nat, s: Slot)
  {
    s.Used? ==>
      var at := EntryAt(i, w + r);
      && at + w + r <= |t| && s.offset < Pow256(w)
      && t[at..at + w] == Enc(s.offset, w) && t[at + w..at + w + r] == s.refs
  }

  predicate AllStored(t: seq<byte>, w: nat, r: nat, slots: seq<Slot>)
  {
    |t| == EntryAt(|slots|, w + r) && forall i :: 0 <= i < |slots| ==> Stored(t, w, r, i, slots[i])
  }

  /** Finished or partial table data for a set of entries. */
  ghost predicate Data(t: seq<byte>, w: nat, r: nat, slots: seq<Slot>, hash: nat -> nat)
  {
    && w <= 4 && r < 0x2000 && |slots| < 0x1_0000
    && AllStored(t, w, r, slots) && t[..4] == Header(w, r, |slots|)
    && Reachable(slots, hash) && Distinct(slots)
  }

  /** Writing one entry leaves the others and the header alone. */
  lemma {:induction false} StoreKeeps(t: seq<byte>, t': seq<byte>, w: nat, r: nat, slots: seq<Slot>, i: nat, s: Slot)
    requires AllStored(t, w, r, slots) && i < |slots| && |t'| == |t| && Stored(t', w, r, i, s)
    requires var at := EntryAt(i, w + r);
             at + w + r <= |t| && t'[..at] == t[..at] && t'[at + w + r..] == t[at + w + r..]
    ensures AllStored(t', w, r, slots[i := s]) && t'[..4] == t[..4]
  {
    var at := EntryAt(i, w + r);
    var slots' := slots[i := s];
    assert t'[..4] == t'[..at][..4] == t[..at][..4] == t[..4];
    forall j | 0 <= j < |slots'| ensures Stored(t', w, r, j, slots'[j]) {
      if j != i && slots[j].Used? {
        StoreElsewhere(t, t', w, r, i, j, slots[j]);
      }
    }
  }

  lemma {:induction false} StoreElsewhere(t: seq<byte>, t': seq<byte>, w: nat, r: nat, i: nat, j: nat, s: Slot)
    requires i != j && s.Used? && Stored(t, w, r, j, s) && |t'| == |t|
    requires var at := EntryAt(i, w + r);
             at + w + r <= |t| && t'[..at] == t[..at] && t'[at + w + r..] == t[at + w + r..]
    ensures Stored(t', w, r, j, s)
  {
    EntriesApart(i, j, w + r);
    var at, b := EntryAt(i, w + r), EntryAt(j, w + r);
    SliceKept(t, t', at, at + w + r, b, b + w);
    SliceKept(t, t', at, at + w + r, b + w, b + w + r);
  }

  lemma {:induction false} SliceKept(t: seq<byte>, t': seq<byte>, from: nat, to: nat, lo: nat, hi: nat)
    requires from <= to <= |t| == |t'| && t'[..from] == t[..from] && t'[to..] == t[to..]
    requires lo <= hi <= |t| && (hi <= from || to <= lo)
    ensures t'[lo..hi] == t[lo..hi]
  {
    forall k | lo <= k < hi ensures t'[k] == t[k] {
      if hi <= from {
        assert t'[..from][k] == t[..from][k];
      } else {
        assert t'[to..][k - to] == t[to..][k - to];
      }
    }
  }

  function Empty(n: nat): (slots: seq<Slot>)
    ensures |slots| == n && forall i :: 0 <= i < n ==> slots[i].Free?
  {
    seq(n, _ => Free)
  }

  lemma {:induction false} EmptyData(t: seq<byte>, w: nat, r: nat, n: nat, hash: nat -> nat)
    requires w <= 4 && r < 0x2000 && n < 0x1_0000
    requires |t| == EntryAt(n, w + r) && t[..4] == Header(w, r, n)
    ensures Data(t, w, r, Empty(n), hash)
  {
  }

  method NewTable(w: nat, r: nat, entries: nat) returns (t: array<byte>)
    requires w <= 4 && r < 0x2000 && entries < 0x1_0000
    ensures fresh(t) && |t[..]| == EntryAt(entries, w + r) && t[..][..4] == Header(w, r, entries)
  {
    t := new byte[EntryAt(entries, w + r)](_ => 0);
    var header := Header(w, r, entries);
    t[0], t[1], t[2], t[3] := header[0], header[1], header[2], header[3];
  }

  /** `v >> (8 * i)`. */
  function ShiftedRight(v: nat, i: nat): nat
  {
    if i == 0 then v else ShiftedRight(v / 256, i - 1)
  }

  lemma {:induction false} EncByte(v: nat, w: nat, i: nat)
    requires i < w
    ensures Enc(v, w)[i] == ShiftedRight(v, i) % 256
  {
    if i > 0 { EncByte(v / 256, w - 1, i - 1); }
  }

  /** Writes an offset byte by byte, lowest first. */
  method SetCodeOffset(t: array<byte>, at: nat, v: nat, w: nat)
    requires at + w <= t.Length && w <= 4
    modifies t
    ensures t[at..at + w] == Enc(v, w)
    ensures t[..at] == old(t[..at]) && t[at + w..] == old(t[at + w..])
  {
    for i := 0 to w
      invariant forall k :: 0 <= k < i ==> t[at + k] == Enc(v, w)[k]
      invariant t[..at] == old(t[..at]) && t[at + w..] == old(t[at + w..])
    {
      EncByte(v, w, i);
      t[at + i] := ShiftedRight(v, i) % 256;
    }
  }

  method SetReferences(t: array<byte>, at: nat, refs: seq<byte>)
    requires at + |refs| <= t.Length
    modifies t
    ensures t[at..at + |refs|] == refs
    ensures t[..at] == old(t[..at]) && t[at + |refs|..] == old(t[at + |refs|..])
  {
    forall k | 0 <= k < |refs| { t[at + k] := refs[k]; }
  }

  method WriteEntry(t: array<byte>, at: nat, offset: nat, w: nat, refs: seq<byte>)
    requires at + w + |refs| <= t.Length && w <= 4
    modifies t
    ensures t[at..at + w] == Enc(offset, w) && t[at + w..at + w + |refs|] == refs
    ensures t[..at] == old(t[..at]) && t[at + w + |refs|..] == old(t[at + w + |refs|..])
  {
    SetCodeOffset(t, at, offset, w);
    ghost var u := t[..];
    assert t[at + w + |refs|..] == t[at + w..][|refs|..];
    assert old(t[at + w + |refs|..]) == old(t[at + w..])[|refs|..];
    SetReferences(t, at + w, refs);
    assert t[..at] == t[..at + w][..at] && t[at..at + w] == t[..at + w][at..];
    assert u[..at] == u[..at + w][..at] && u[at..at + w] == u[..at + w][at..];
  }

  class GcMapBuilder {
    const entries: nat
    const refsWidth: nat
    const offsetWidth: nat
    const hash: nat -> nat
    const table: array<byte>
    const inUse: array<bool>
    ghost var slots: seq<Slot>

    ghost predicate Valid()
      reads this, table, inUse
    {
      && |slots| == entries == inUse.Length
      && (forall i :: 0 <= i < entries ==> inUse[i] == slots[i].Used?)
      && Data(table[..], offsetWidth, refsWidth, slots, hash)
    }

    /** An empty table with its header. */
    constructor (entries: nat, max: nat, refsWidth: nat, hash: nat -> nat)
      requires max < WORD && refsWidth < 0x2000 && entries < 0x1_0000
      ensures Valid() && fresh(table) && fresh(inUse) && this.entries == entries && this.hash == hash
      ensures slots == Empty(entries)
      ensures entries != 0 ==> this.refsWidth == refsWidth && max < Pow256(offsetWidth)
    {
      var w := OffsetWidth(entries, max);
      var r := if entries != 0 then refsWidth else 0;
      if entries != 0 { OffsetWidthFits(entries, max); }
      var t := NewTable(w, r, entries);
      this.entries, this.refsWidth, this.offsetWidth, this.hash := entries, r, w, hash;
      this.table := t;
      this.inUse := new bool[entries](_ => false);
      this.slots := Empty(entries);
      new;
      EmptyData(table[..], w, r, entries, hash);
    }

    /** Linear probing finds a free slot that all slots from the hash on lead to. */
    method FindFree(offset: nat) returns (index: nat)
      requires Valid() && UsedCount(slots) < entries
      ensures index < entries && slots[index].Free? && Chained(slots, hash(offset) % entries, index)
    {
      ghost var free := SomeFree(slots);
      ghost var h := hash(offset) % entries;
      index := hash(offset) % entries;
      while inUse[index]
        invariant index < entries && Chained(slots, h, index)
        invariant Distance(entries, h, index) <= Distance(entries, h, free)
        decreases Distance(entries, index, free)
      {
        NextAround(entries, index);
        ProbeNext(slots, h, index, free);
        index := (index + 1) % entries;
      }
    }

    /** Adds an entry: its offset and bitmap are stored, every other entry is kept. */
    method AddEntry(offset: nat, refs: seq<byte>) returns (ghost index: nat)
      requires Valid() && UsedCount(slots) < entries
      requires offset < Pow256(offsetWidth) && |refs| == refsWidth && Absent(slots, offset)
      modifies this, table, inUse
      ensures Valid() && index < entries && old(slots)[index].Free? && slots == old(slots)[index := Used(offset, refs)]
      ensures UsedCount(slots) == UsedCount(old(slots)) + 1
    {
      var i := FindFree(offset);
      index := i;
      ghost var t, s := table[..], Used(offset, refs);
      EntryInside(i, entries, offsetWidth + refsWidth);
      inUse[i] := true;
      WriteEntry(table, EntryAt(i, offsetWidth + refsWidth), offset, offsetWidth, refs);
      StoreKeeps(t, table[..], offsetWidth, refsWidth, slots, i, s);
      InsertKeeps(slots, hash, i, s);
      CountUse(slots, i, s);
      slots := slots[i := s];
    }
  }

  // ----- The lookup at run time -----

  /** An offset as the reader sees it. Each byte is shifted as a signed 32-bit value, so where pointers have 64
      bits a fourth byte of 128 or more fills the upper half with ones. */
  function NativePcOffset(b: seq<byte>, bits64: bool): nat
  {
    if bits64 && |b| == 4 && b[3] >= 128 then Dec(b) + (WORD - 1) * WORD else Dec(b)
  }

  lemma {:induction false} TopByte(v: nat)
    requires v < WORD
    ensures Enc(v, 4)[3] >= 128 <==> v >= 0x8000_0000
  {
    EncByte(v, 4, 3);
    assert ShiftedRight(v, 3) == v / 256 / 256 / 256;
  }

  /** A stored offset reads back as itself unless it has bit 31 set and pointers have 64 bits; then it reads
      back as no 32-bit value at all. */
  lemma {:induction false} ReadsBackIff(v: nat, w: nat, bits64: bool)
    requires w <= 4 && v < Pow256(w)
    ensures v < WORD
    ensures if bits64 && v >= 0x8000_0000 then NativePcOffset(Enc(v, w), bits64) >= WORD
            else NativePcOffset(Enc(v, w), bits64) == v
  {
    assert Pow256(0) == 1 && Pow256(1) == 256 && Pow256(2) == 0x1_0000 && Pow256(3) == 0x100_0000 && Pow256(4) == WORD;
    DecEnc(v, w);
    if w == 4 { TopByte(v); }
  }

  function OffsetOf(data: seq<byte>, w: nat, r: nat, i: nat, bits64: bool): nat
    requires EntryAt(i, w + r) + w <= |data|
  {
    var at := EntryAt(i, w + r);
    NativePcOffset(data[at..at + w], bits64)
  }

  lemma {:induction false} OffsetOfSlot(data: seq<byte>, w: nat, r: nat, slots: seq<Slot>, hash: nat -> nat, i: nat,
                                        bits64: bool)
    requires Data(data, w, r, slots, hash) && i < |slots| && slots[i].Used?
    ensures EntryAt(i, w + r) + w + r <= |data| && slots[i].offset < WORD
    ensures if bits64 && slots[i].offset >= 0x8000_0000 then OffsetOf(data, w, r, i, bits64) >= WORD
            else OffsetOf(data, w, r, i, bits64) == slots[i].offset
  {
    assert Stored(data, w, r, i, slots[i]);
    ReadsBackIff(slots[i].offset, w, bits64);
  }

  lemma {:induction false} HeaderOf(data: seq<byte>, w: nat, r: nat, slots: seq<Slot>, hash: nat -> nat)
    requires Data(data, w, r, slots, hash)
    ensures |data| >= 4 && NativeOffsetWidth(data) == w && RegWidth(data) == r && NumEntries(data) == |slots|
  {
    HeaderRoundTrip(w, r, |slots|);
    SameHeader(data, Header(w, r, |slots|));
  }

  lemma {:induction false} SameHeader(data: seq<byte>, h: seq<byte>)
    requires |data| >= 4 && data[..4] == h
    ensures NativeOffsetWidth(data) == NativeOffsetWidth(h) && RegWidth(data) == RegWidth(h) &&
            NumEntries(data) == NumEntries(h)
  {
    assert forall k :: 0 <= k < 4 ==> data[k] == h[k];
  }

  /** A lookup for the entry in slot `at` has come to slot `i`, not past its goal, and can tell the goal. */
  ghost predicate Seeking(data: seq<byte>, w: nat, r: nat, slots: seq<Slot>, h: nat, at: nat, i: nat, bits64: bool)
  {
    && h < |slots| && i < |slots| && at < |slots| && Distance(|slots|, h, i) <= Distance(|slots|, h, at)
    && slots[at].Used? && EntryAt(i, w + r) + w + r <= |data|
    && (OffsetOf(data, w, r, i, bits64) == slots[at].offset <==> i == at)
  }

  lemma {:induction false} SeekAt(data: seq<byte>, w: nat, r: nat, slots: seq<Slot>, hash: nat -> nat, at: nat, i: nat,
                                  bits64: bool)
    requires Data(data, w, r, slots, hash) && at < |slots| && i < |slots| && slots[at].Used?
    requires !bits64 || slots[at].offset < 0x8000_0000
    requires var h := hash(slots[at].offset) % |slots|;
             Distance(|slots|, h, i) <= Distance(|slots|, h, at)
    ensures Seeking(data, w, r, slots, hash(slots[at].offset) % |slots|, at, i, bits64)
  {
    var n, h := |slots|, hash(slots[at].offset) % |slots|;
    assert Chained(slots, h, at);
    assert Around(n, h, Distance(n, h, i)) == i;
    assert slots[i].Used?;
    OffsetOfSlot(data, w, r, slots, hash, i, bits64);
  }

  lemma {:induction false} CloserBy(n: nat, h: nat, at: nat, i: nat)
    requires h < n && at < n && i < n && i != at && Distance(n, h, i) <= Distance(n, h, at)
    ensures var i' := if i + 1 == n then 0 else i + 1;
            Distance(n, h, i') == Distance(n, h, i) + 1 <= Distance(n, h, at)
  {
  }

  /** Linear probing for an offset. */
  method FindIndex(data: seq<byte>, hash: nat -> nat, n: nat, offsetWidth: nat, refsWidth: nat, offset: nat,
                   bits64: bool,
                   ghost slots: seq<Slot>, ghost at: nat)
    returns (index: nat)
    requires Data(data, offsetWidth, refsWidth, slots, hash) && n == |slots|
    requires at < n && slots[at].Used? && slots[at].offset == offset && (!bits64 || offset < 0x8000_0000)
    ensures index == at
  {
    index := hash(offset) % n;
    ghost var h := index;
    SeekAt(data, offsetWidth, refsWidth, slots, hash, at, index, bits64);
    while OffsetOf(data, offsetWidth, refsWidth, index, bits64) != offset
      invariant index < n && Seeking(data, offsetWidth, refsWidth, slots, h, at, index, bits64)
      decreases n - Distance(n, h, index)
    {
      CloserBy(n, h, at, index);
      NextAround(n, index);
      index := (index + 1) % n;
      SeekAt(data, offsetWidth, refsWidth, slots, hash, at, index, bits64);
    }
  }

  /** The lookup finds the bitmap of every entry whose offset reads back. */
  method FindBitMap(data: seq<byte>, hash: nat -> nat, offset: nat, bits64: bool,
                    ghost w: nat, ghost r: nat, ghost slots: seq<Slot>, ghost at: nat)
    returns (bitmap: seq<byte>)
    requires Data(data, w, r, slots, hash) && at < |slots| && slots[at].Used? && slots[at].offset == offset
    requires !bits64 || offset < 0x8000_0000
    ensures bitmap == slots[at].refs
  {
    HeaderOf(data, w, r, slots, hash);
    var offsetWidth, refsWidth := NativeOffsetWidth(data), RegWidth(data);
    var index := FindIndex(data, hash, NumEntries(data), offsetWidth, refsWidth, offset, bits64, slots, at);
    assert Stored(data, w, r, at, slots[at]);
    var entry := EntryAt(index, offsetWidth + refsWidth);
    bitmap := data[entry + offsetWidth..entry + offsetWidth + refsWidth];
  }

  /** No bytes read back as a value with bit 31 set where pointers have 64 bits. */
  lemma {:induction false} NothingReadsHigh(b: seq<byte>, offset: nat)
    requires |b| <= 4 && 0x8000_0000 <= offset < WORD
    ensures NativePcOffset(b, true) != offset
  {
    DecBound(b);
    if |b| < 4 {
      assert Pow256(0) == 1 && Pow256(1) == 256 && Pow256(2) == 0x1_0000 && Pow256(3) == 0x100_0000;
    } else if b[3] < 128 {
      DecIsRead32(b);
    }
  }

  lemma {:induction false} DecBound(b: seq<byte>)
    ensures Dec(b) < Pow256(|b|)
  {
    if b != [] { DecBound(b[1..]); }
  }

  /** An offset with bit 31 set is never found where pointers have 64 bits: no slot, used or free, reads back as it. */
  lemma {:induction false} HighOffsetNeverFound(data: seq<byte>, w: nat, r: nat, slots: seq<Slot>, hash: nat -> nat,
                                                offset: nat, i: nat)
    requires Data(data, w, r, slots, hash) && 0x8000_0000 <= offset < WORD && i < |slots|
    ensures EntryAt(i, w + r) + w <= |data| && OffsetOf(data, w, r, i, true) != offset
  {
    EntryInside(i, |slots|, w + r);
    var at := EntryAt(i, w + r);
    NothingReadsHigh(data[at..at + w], offset);
  }

  lemma {:induction false} ProbeNext(slots: seq<Slot>, h: nat, i: nat, free: nat)
    requires h < |slots| && i < |slots| && free < |slots| && slots[i].Used? && slots[free].Free? && Chained(slots, h, i)
    requires Distance(|slots|, h, i) <= Distance(|slots|, h, free)
    ensures var i' := if i + 1 == |slots| then 0 else i + 1;
            && Chained(slots, h, i')
            && Distance(|slots|, h, i') <= Distance(|slots|, h, free)
            && Distance(|slots|, i', free) < Distance(|slots|, i, free)
  {
    var n := |slots|;
    var i' := if i + 1 == n then 0 else i + 1;
    assert Distance(n, h, i') == Distance(n, h, i) + 1;
    forall d | 0 <= d < Distance(n, h, i') ensures slots[Around(n, h, d)].Used? {
      if d < Distance(n, h, i) { assert slots[Around(n, h, d)].Used?; }
    }
  }

  /** A table entry for one native offset. */
  datatype Item = Item(offset: nat, refs: seq<byte>)

  predicate Items(items: seq<Item>, max: nat, refsWidth: nat)
  {
    && (forall k :: 0 <= k < |items| ==> items[k].offset <= max && |items[k].refs| == refsWidth)
    && (forall k, l :: 0 <= k < l < |items| ==> items[k].offset != items[l].offset)
  }

  /** The used slots are exactly the first `k` items. */
  ghost predicate Filled(slots: seq<Slot>, items: seq<Item>, k: nat)
    requires k <= |items|
  {
    && UsedCount(slots) == k
    && (forall i :: 0 <= i < |slots| && slots[i].Used? ==> Item(slots[i].offset, slots[i].refs) in items[..k])
    && (forall j :: 0 <= j < k ==> Used(items[j].offset, items[j].refs) in slots)
  }

  lemma {:induction false} FillStep(slots: seq<Slot>, items: seq<Item>, k: nat, i: nat)
    requires k < |items| && Filled(slots, items, k) && i < |slots| && slots[i].Free?
    ensures var s := Used(items[k].offset, items[k].refs);
            UsedCount(slots[i := s]) == k + 1 ==> Filled(slots[i := s], items, k + 1)
  {
    var s := Used(items[k].offset, items[k].refs);
    var slots' := slots[i := s];
    assert slots'[i] == s;
    forall j | 0 <= j < k ensures Used(items[j].offset, items[j].refs) in slots' {
      var m :| 0 <= m < |slots| && slots[m] == Used(items[j].offset, items[j].refs);
      assert slots'[m] == slots[m];
    }
  }

  lemma {:induction false} EmptyCount(n: nat)
    ensures UsedCount(Empty(n)) == 0
  {
    if n > 0 {
      EmptyCount(n - 1);
      assert Empty(n)[..n - 1] == Empty(n - 1);
    }
  }

  /** Any table of up to `entries` items, in any order and with any hash function: it is complete, and every
      item can be looked up in it. */
  method BuildTable(entries: nat, max: nat, refsWidth: nat, hash: nat -> nat, items: seq<Item>)
    returns (data: seq<byte>, ghost w: nat, ghost r: nat, ghost slots: seq<Slot>)
    requires max < WORD && refsWidth < 0x2000 && entries < 0x1_0000 && |items| <= entries &&
             Items(items, max, refsWidth)
    ensures Data(data, w, r, slots, hash) && |slots| == entries && Filled(slots, items, |items|)
  {
    var builder := new GcMapBuilder(entries, max, refsWidth, hash);
    EmptyCount(entries);
    for k := 0 to |items|
      invariant builder.Valid() && fresh(builder) && fresh(builder.table) && fresh(builder.inUse)
      invariant Filled(builder.slots, items, k)
    {
      ghost var before := builder.slots;
      ghost var index := builder.AddEntry(items[k].offset, items[k].refs);
      FillStep(before, items, k, index);
    }
    data, w, r, slots := builder.table[..], builder.offsetWidth, builder.refsWidth, builder.slots;
  }
}

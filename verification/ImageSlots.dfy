/** Bin slots and forwarding addresses packed into 32-bit lock words. */
module ImageSlots {

  function PackSlot(bin: bv32, index: bv32): bv32
  {
    index | (bin << 27)
  }

  function GetBin(lockWord: bv32): bv32
  {
    (lockWord & 0x3800_0000) >> 27
  }

  function GetIndex(lockWord: bv32): bv32
  {
    lockWord & !0x3800_0000
  }

  lemma {:induction false} BinStaysInMask(bin: bv32)
    requires bin < 8
    ensures (bin << 27) & 0x3800_0000 == bin << 27 && (bin << 27) >> 27 == bin
  {
  }

  lemma {:induction false} IndexPart(index: bv32, high: bv32)
    requires high & 0x3800_0000 == high
    ensures (index | high) & !0x3800_0000 == index <==> index & 0x3800_0000 == 0
  {
  }

  lemma {:induction false} BinPart(index: bv32, high: bv32)
    requires high & 0x3800_0000 == high && index & 0x3800_0000 == 0
    ensures (index | high) & 0x3800_0000 == high
  {
  }

  /** An index is read back exactly if it leaves the three bin bits alone. */
  lemma {:induction false} IndexRoundTripIff(bin: bv32, index: bv32)
    requires bin < 8
    ensures GetIndex(PackSlot(bin, index)) == index <==> index & 0x3800_0000 == 0
  {
    var high := bin << 27;
    BinStaysInMask(bin);
    IndexOf(index, high, PackSlot(bin, index));
  }

  lemma {:induction false} IndexOf(index: bv32, high: bv32, packed: bv32)
    requires high & 0x3800_0000 == high && packed == index | high
    ensures GetIndex(packed) == index <==> index & 0x3800_0000 == 0
  {
    IndexPart(index, high);
  }

  /** Then the bin is read back too. */
  lemma {:induction false} BinRoundTrip(bin: bv32, index: bv32)
    requires bin < 8 && index & 0x3800_0000 == 0
    ensures GetBin(PackSlot(bin, index)) == bin
  {
    BinStaysInMask(bin);
    BinPart(index, bin << 27);
  }

  /** In the forwarding state the two lowest bits are shifted out and the two highest mark the state. */
  function FromForwardingAddress(target: bv32): bv32
  {
    (target >> 2) | 0xC000_0000
  }

  function ForwardingAddress(lockWord: bv32): bv32
  {
    lockWord << 2
  }

  function ReadBarrierState(lockWord: bv32): bv32
  {
    (lockWord >> 28) & 3
  }

  lemma {:induction false} ForwardingRoundTripIff(target: bv32)
    ensures ForwardingAddress(FromForwardingAddress(target)) == target <==> target & 3 == 0
    ensures ReadBarrierState(FromForwardingAddress(target)) == 0 <==> target < 0x4000_0000
  {
  }

  /** A slot with an aligned index below 2^27 survives the lock word, and the read barrier bits stay clear. */
  lemma {:induction false} TheoremSlotInLockWord(bin: bv32, index: bv32)
    requires bin < 8 && index < 0x800_0000 && index & 7 == 0
    ensures var w := FromForwardingAddress(PackSlot(bin, index));
            ReadBarrierState(w) == 0 && GetBin(ForwardingAddress(w)) == bin && GetIndex(ForwardingAddress(w)) == index
  {
    var t := PackSlot(bin, index);
    assert t & 3 == 0 && t < 0x4000_0000;
    ForwardingRoundTripIff(t);
    IndexRoundTripIff(bin, index);
    BinRoundTrip(bin, index);
  }
}

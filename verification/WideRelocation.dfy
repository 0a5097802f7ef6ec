/** Relocation of 64-bit files: the loader adds eight bytes wide, while the addresses in code are four bytes long. */
module WideRelocation {
  import opened Bytes
  import opened PatchList

  const LONG := 0x1_0000_0000_0000_0000

  function Add64(a: nat, b: nat): (r: nat)
    requires a < LONG && b < LONG
    ensures r < LONG
  {
    if a + b < LONG then a + b else a + b - LONG
  }

  function Read64(b: seq<byte>, at: nat): (v: nat)
    requires at + 8 <= |b|
    ensures v < LONG
  {
    Read32(b, at) + WORD * Read32(b, at + 4)
  }

  function Le64(v: nat): (b: seq<byte>)
    requires v < LONG
    ensures |b| == 8
  {
    Le32(v % WORD) + Le32(v / WORD)
  }

  function Shifted64(section: seq<byte>, at: nat, delta: nat): (r: seq<byte>)
    requires at + 8 <= |section| && delta < LONG
    ensures |r| == |section|
  {
    section[..at] + Le64(Add64(Read64(section, at), delta)) + section[at + 8..]
  }

  predicate Inside64(section: seq<byte>, locations: seq<nat>)
  {
    forall i :: 0 <= i < |locations| ==> locations[i] + 8 <= |section|
  }

  function Relocated64(section: seq<byte>, locations: seq<nat>, delta: nat): (r: seq<byte>)
    requires Inside64(section, locations) && delta < LONG
    ensures |r| == |section|
    decreases |locations|
  {
    if locations == [] then section else Relocated64(Shifted64(section, locations[0], delta), locations[1..], delta)
  }

  method ApplyOatPatches(patches: seq<byte>, ghost locations: seq<nat>, delta: nat, section: array<byte>)
    requires Encodable(locations, 0) && patches == Deltas(locations, 0) && delta < LONG
    requires Inside64(section[..], locations)
    modifies section
    ensures section[..] == Relocated64(old(section[..]), locations, delta)
  {
    var at: nat, toPatch: nat := 0, 0;
    ghost var rest := locations;
    while at < |patches|
      invariant at <= |patches|
      invariant Encodable(rest, toPatch) && patches[at..] == Deltas(rest, toPatch)
      invariant Inside64(section[..], rest)
      invariant Relocated64(section[..], rest, delta) == Relocated64(old(section[..]), locations, delta)
      decreases |rest|
    {
      NextPatch(patches, at, rest, toPatch);
      var decoded := DecodeUleb(patches, at);
      toPatch := toPatch + decoded.value;
      at := decoded.next;
      ShiftLong(section, toPatch, delta);
      rest := rest[1..];
    }
  }

  method ShiftLong(section: array<byte>, at: nat, delta: nat)
    requires at + 8 <= section.Length && delta < LONG
    modifies section
    ensures section[..] == Shifted64(old(section[..]), at, delta)
  {
    var long := Le64(Add64(Read64(section[..], at), delta));
    for k := 0 to 8
      invariant forall i :: 0 <= i < section.Length ==>
                  section[i] == if at <= i < at + k then long[i - at] else old(section[i])
    {
      section[at + k] := long[k];
    }
  }

  // ----- One location -----

  /** The address, moved, is one of 32 bits; a negative move is a delta of almost 2^64. */
  predicate Stays(section: seq<byte>, at: nat, delta: nat)
    requires at + 4 <= |section|
  {
    var moved := Read32(section, at) + delta;
    moved < WORD || LONG <= moved < LONG + WORD
  }

  /** The sum in two halves: the low one wraps around, and what it carries goes into the high one. */
  lemma {:induction false} Halves(low: nat, high: nat, delta: nat, dl: nat, dh: nat)
    requires low < WORD && high < WORD && delta < LONG && dl < WORD && delta == dl + WORD * dh
    ensures var sum := Add64(low + WORD * high, delta);
            var carried := high + dh + (if low + dl < WORD then 0 else 1);
            && sum % WORD == Add32(low, dl) && sum / WORD == if carried < WORD then carried else carried - WORD
  {
    var carried := high + dh + (if low + dl < WORD then 0 else 1);
    Split(Add32(low, dl), if carried < WORD then carried else carried - WORD);
  }

  lemma {:induction false} Split(low: nat, high: nat)
    requires low < WORD
    ensures (low + WORD * high) % WORD == low && (low + WORD * high) / WORD == high
  {
  }

  /** The eight bytes written: the moved address, and the word behind it, which is as it was exactly if the address
      stays one of 32 bits. */
  lemma {:induction false} LongWritten(section: seq<byte>, at: nat, delta: nat, next: nat)
    requires at + 8 <= |section| && delta < LONG && next == Add64(Read64(section, at), delta) / WORD
    ensures next < WORD
    ensures Le64(Add64(Read64(section, at), delta)) ==
            Le32(Add32(Read32(section, at), delta % WORD)) + Le32(next)
    ensures next == Read32(section, at + 4) <==> Stays(section, at, delta)
  {
    Halves(Read32(section, at), Read32(section, at + 4), delta, delta % WORD, delta / WORD);
  }

  lemma {:induction false} WideBytes(section: seq<byte>, at: nat, delta: nat, next: nat)
    requires at + 8 <= |section| && delta < LONG && next == Add64(Read64(section, at), delta) / WORD
    ensures next < WORD && Read32(Shifted64(section, at, delta), at + 4) == next
    ensures Shifted64(section, at, delta) ==
            section[..at] + Le32(Add32(Read32(section, at), delta % WORD)) + Le32(next) + section[at + 8..]
  {
    LongWritten(section, at, delta, next);
    var wide := Shifted64(section, at, delta);
    var low := Le32(Add32(Read32(section, at), delta % WORD));
    assert wide == section[..at] + low + Le32(next) + section[at + 8..];
    assert wide[at + 4..at + 8] == Le32(next);
    Read32Local(wide, at + 4, Le32(next), 0);
  }

  lemma {:induction false} NarrowBytes(section: seq<byte>, at: nat, delta: nat)
    requires at + 8 <= |section| && delta < WORD
    ensures Read32(Shifted(section, at, delta), at + 4) == Read32(section, at + 4)
  {
    assert Shifted(section, at, delta)[at + 4..at + 8] == section[at + 4..at + 8];
    Read32Local(Shifted(section, at, delta), at + 4, section, at + 4);
  }

  lemma {:induction false} WordBehind(section: seq<byte>, at: nat, next: nat)
    requires at + 4 <= |section| && next == Read32(section, at)
    ensures section[at..] == Le32(next) + section[at + 4..]
  {
    var mine, tail := section[at..], section[at + 4..];
    assert mine[..4] == section[at..at + 4];
    Read32Local(mine, 0, section, at);
    WordInjective(mine, Le32(next), 0);
    assert mine[4..] == tail;
    assert mine == mine[0..4] + mine[4..];
    assert Le32(next)[0..4] == Le32(next);
  }

  lemma {:induction false} ShiftedIff(section: seq<byte>, at: nat, delta: nat)
    requires at + 8 <= |section| && delta < LONG
    ensures Stays(section, at, delta) ==> Shifted64(section, at, delta) == Shifted(section, at, delta % WORD)
    ensures !Stays(section, at, delta) ==>
              exists q :: at + 4 <= q < at + 8 &&
                          Shifted64(section, at, delta)[q] != Shifted(section, at, delta % WORD)[q]
  {
    var next := Add64(Read64(section, at), delta) / WORD;
    LongWritten(section, at, delta, next);
    WideBytes(section, at, delta, next);
    if Stays(section, at, delta) {
      WordBehind(section, at + 4, next);
      Joined(section[..at], Le32(Add32(Read32(section, at), delta % WORD)), Le32(next), section[at + 8..]);
    } else {
      NarrowBytes(section, at, delta % WORD);
      ByteDiffers(Shifted64(section, at, delta), Shifted(section, at, delta % WORD), at + 4);
    }
  }

  lemma {:induction false} Joined(a: seq<byte>, b: seq<byte>, c: seq<byte>, d: seq<byte>)
    ensures a + b + c + d == a + b + (c + d)
  {
  }

  lemma {:induction false} ByteDiffers(a: seq<byte>, b: seq<byte>, at: nat)
    requires at + 4 <= |a| && at + 4 <= |b| && Read32(a, at) != Read32(b, at)
    ensures exists q :: at <= q < at + 4 && a[q] != b[q]
  {
  }

  lemma {:induction false} ShiftedElsewhere(section: seq<byte>, at: nat, delta: nat, i: nat)
    requires at + 8 <= |section| && delta < LONG && i < |section| && (i < at || at + 8 <= i)
    ensures Shifted64(section, at, delta)[i] == section[i]
  {
  }

  lemma {:induction false} LowWord(section: seq<byte>, at: nat, delta: nat)
    requires at + 8 <= |section| && delta < LONG
    ensures Read32(Shifted64(section, at, delta), at) == Add32(Read32(section, at), delta % WORD)
  {
    LongWritten(section, at, delta, Add64(Read64(section, at), delta) / WORD);
    var low := Le32(Add32(Read32(section, at), delta % WORD));
    assert Shifted64(section, at, delta)[at..at + 4] == low;
    Read32Local(Shifted64(section, at, delta), at, low, 0);
  }

  // ----- All locations -----

  lemma {:induction false} Kept64(section: seq<byte>, locations: seq<nat>, delta: nat, i: nat)
    requires Inside64(section, locations) && delta < LONG && i < |section|
    requires forall k :: 0 <= k < |locations| ==> i < locations[k]
    ensures Relocated64(section, locations, delta)[i] == section[i]
    decreases |locations|
  {
    if locations != [] {
      ShiftedElsewhere(section, locations[0], delta, i);
      Kept64(Shifted64(section, locations[0], delta), locations[1..], delta, i);
    }
  }

  lemma {:induction false} InsideNarrow(section: seq<byte>, locations: seq<nat>)
    requires Inside64(section, locations)
    ensures InsideSection(section, locations)
  {
  }

  /** A byte that differs in front of the locations, or in the first word of them, leaves the results different. */
  lemma {:induction false} StayDifferent(a: seq<byte>, b: seq<byte>, locations: seq<nat>, delta: nat, q: nat)
    requires |a| == |b| && Inside64(a, locations) && Spaced(locations) && delta < LONG
    requires q < |a| && a[q] != b[q] && (locations != [] ==> q < locations[0] + 4)
    ensures InsideSection(b, locations) && Relocated64(a, locations, delta) != Relocated(b, locations, delta % WORD)
  {
    InsideNarrow(b, locations);
    if locations == [] || q < locations[0] {
      Kept64(a, locations, delta, q);
      OutsideKept(b, locations, delta % WORD, q);
    } else {
      var l, rest := locations[0], locations[1..];
      var a', b' := Shifted64(a, l, delta), Shifted(b, l, delta % WORD);
      if Read32(a, l) == Read32(b, l) { SameByte(a, b, l, q); }
      LowWord(a, l, delta);
      ShiftedWord(b, l, delta % WORD);
      ByteDiffers(a', b', l);
      var p :| l <= p < l + 4 && a'[p] != b'[p];
      assert forall k :: 0 <= k < |rest| ==> rest[k] == locations[k + 1];
      Kept64(a', rest, delta, p);
      OutsideKept(b', rest, delta % WORD, p);
    }
  }

  /** All listed addresses stay of 32 bits. */
  predicate AllStay(section: seq<byte>, locations: seq<nat>, delta: nat)
    requires InsideSection(section, locations)
  {
    forall k :: 0 <= k < |locations| ==> Stays(section, locations[k], delta)
  }

  lemma {:induction false} RestStays(section: seq<byte>, locations: seq<nat>, delta: nat)
    requires Inside64(section, locations) && Spaced(locations) && delta < LONG && locations != []
    ensures var once := Shifted(section, locations[0], delta % WORD);
            && InsideSection(section, locations) && InsideSection(once, locations[1..])
            && (AllStay(section, locations, delta) <==>
                Stays(section, locations[0], delta) && AllStay(once, locations[1..], delta))
  {
    var l, rest := locations[0], locations[1..];
    var once := Shifted(section, l, delta % WORD);
    ShiftedWord(section, l, delta % WORD);
    forall k | 0 <= k < |rest|
      ensures rest[k] == locations[k + 1] && Read32(once, rest[k]) == Read32(section, rest[k])
    {
      assert once[rest[k]..rest[k] + 4] == section[rest[k]..rest[k] + 4];
      Read32Local(once, rest[k], section, rest[k]);
    }
    assert forall k :: 0 < k < |locations| ==> locations[k] == rest[k - 1];
  }

  /** Relocating a 64-bit file moves the listed addresses and nothing else exactly if every address, moved, is still
      one of 32 bits. */
  lemma {:induction false} TheoremWideIff(section: seq<byte>, locations: seq<nat>, delta: nat)
    requires Inside64(section, locations) && Spaced(locations) && delta < LONG
    ensures InsideSection(section, locations)
    ensures Relocated64(section, locations, delta) == Relocated(section, locations, delta % WORD) <==>
            AllStay(section, locations, delta)
    decreases |locations|
  {
    if locations != [] {
      var l, rest := locations[0], locations[1..];
      var wide, narrow := Shifted64(section, l, delta), Shifted(section, l, delta % WORD);
      ShiftedIff(section, l, delta);
      RestStays(section, locations, delta);
      if Stays(section, l, delta) {
        TheoremWideIff(narrow, rest, delta);
      } else {
        var q :| l + 4 <= q < l + 8 && wide[q] != narrow[q];
        StayDifferent(wide, narrow, rest, delta, q);
      }
    }
  }

  // ----- Fields of eight bytes, as in the debug sections -----

  predicate Spaced64(locations: seq<nat>)
  {
    forall i, j :: 0 <= i < j < |locations| ==> locations[i] + 8 <= locations[j]
  }

  predicate Outside64(locations: seq<nat>, i: nat)
  {
    forall k :: 0 <= k < |locations| ==> i < locations[k] || locations[k] + 8 <= i
  }

  lemma {:induction false} OutsideKept64(section: seq<byte>, locations: seq<nat>, delta: nat, i: nat)
    requires Inside64(section, locations) && delta < LONG && i < |section| && Outside64(locations, i)
    ensures Relocated64(section, locations, delta)[i] == section[i]
    decreases |locations|
  {
    if locations != [] {
      var rest := locations[1..];
      assert forall k :: 0 <= k < |rest| ==> rest[k] == locations[k + 1];
      ShiftedElsewhere(section, locations[0], delta, i);
      OutsideKept64(Shifted64(section, locations[0], delta), rest, delta, i);
    }
  }

  lemma {:induction false} LongHere(section: seq<byte>, at: nat, delta: nat)
    requires at + 8 <= |section| && delta < LONG
    ensures Read64(Shifted64(section, at, delta), at) == Add64(Read64(section, at), delta)
  {
    var sum := Add64(Read64(section, at), delta);
    LowWord(section, at, delta);
    WideBytes(section, at, delta, sum / WORD);
    Halves(Read32(section, at), Read32(section, at + 4), delta, delta % WORD, delta / WORD);
  }

  lemma {:induction false} SameLong(a: seq<byte>, b: seq<byte>, at: nat)
    requires at + 8 <= |a| && at + 8 <= |b| && forall i :: at <= i < at + 8 ==> a[i] == b[i]
    ensures Read64(a, at) == Read64(b, at)
  {
  }

  /** Every listed field of eight bytes is moved by the delta modulo 2^64, and no other byte changes. */
  lemma {:induction false} TheoremLongMoved(section: seq<byte>, locations: seq<nat>, delta: nat, k: nat)
    requires Inside64(section, locations) && delta < LONG && Spaced64(locations) && k < |locations|
    ensures Read64(Relocated64(section, locations, delta), locations[k]) == Add64(Read64(section, locations[k]), delta)
    ensures forall i :: 0 <= i < |section| && Outside64(locations, i) ==>
              Relocated64(section, locations, delta)[i] == section[i]
    decreases |locations|
  {
    var l, rest := locations[0], locations[1..];
    var once := Shifted64(section, l, delta);
    var r := Relocated64(once, rest, delta);
    assert forall j :: 0 <= j < |rest| ==> rest[j] == locations[j + 1];
    if k == 0 {
      forall i | l <= i < l + 8 ensures r[i] == once[i] { OutsideKept64(once, rest, delta, i); }
      SameLong(r, once, l);
      LongHere(section, l, delta);
    } else {
      TheoremLongMoved(once, rest, delta, k - 1);
      forall i | locations[k] <= i < locations[k] + 8 ensures once[i] == section[i] {
        ShiftedElsewhere(section, l, delta, i);
      }
      SameLong(once, section, locations[k]);
    }
    forall i | 0 <= i < |section| && Outside64(locations, i) ensures r[i] == section[i] {
      OutsideKept64(section, locations, delta, i);
    }
  }

  /** An address just below 2^32 moved up by a page: the word behind it grows by one. */
  lemma {:induction false} CarryExample()
    ensures var section := Le32(0xffff_f000) + Le32(5);
            var r := Relocated64(section, [0], 0x1000);
            Read32(section, 4) == 5 && Read32(r, 0) == 0 && Read32(r, 4) == 6
  {
    var section := Le32(0xffff_f000) + Le32(5);
    Read32Local(section, 0, Le32(0xffff_f000), 0);
    Read32Local(section, 4, Le32(5), 0);
    var next := Add64(Read64(section, 0), 0x1000) / WORD;
    LongWritten(section, 0, 0x1000, next);
    assert Shifted64(section, 0, 0x1000) == Le32(0) + Le32(6);
  }
}

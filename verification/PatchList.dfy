/** Patch lists: the locations of absolute patches, their encoding as ULEB128 deltas and the
    loader that applies them. */
module PatchList {
  import opened Bytes

  // ----- ULEB128 -----

  /** Seven bits a byte, lowest first, the high bit set on all bytes but the last. */
  function Uleb(value: nat): (b: seq<byte>)
    ensures |b| > 0
  {
    if value < 128 then [value] else [value % 128 + 128] + Uleb(value / 128)
  }

  method EncodeUleb(dest: seq<byte>, value: nat) returns (buffer: seq<byte>)
    ensures buffer == dest + Uleb(value)
  {
    buffer := dest;
    var out: nat, rest: nat := value % 128, value / 128;
    while rest != 0
      invariant 0 <= out < 128
      invariant buffer + (if rest == 0 then [out] else [out + 128] + Uleb(rest)) == dest + Uleb(value)
      decreases rest
    {
      buffer := buffer + [out + 128];
      out, rest := rest % 128, rest / 128;
    }
    buffer := buffer + [out];
  }

  datatype Decoded = Decoded(value: nat, next: nat) | Truncated

  /** The decoder reads at most five bytes and ignores the four high bits of the fifth. */
  function DecodeUleb(data: seq<byte>, at: nat): Decoded
  {
    if at >= |data| then Truncated
    else if data[at] <= 127 then Decoded(data[at], at + 1)
    else if at + 1 >= |data| then Truncated
    else
      var r1 := Low7(data[at]) + 0x80 * Low7(data[at + 1]);
      if data[at + 1] <= 127 then Decoded(r1, at + 2)
      else if at + 2 >= |data| then Truncated
      else
        var r2 := r1 + 0x4000 * Low7(data[at + 2]);
        if data[at + 2] <= 127 then Decoded(r2, at + 3)
        else if at + 3 >= |data| then Truncated
        else
          var r3 := r2 + 0x20_0000 * Low7(data[at + 3]);
          if data[at + 3] <= 127 then Decoded(r3, at + 4)
          else if at + 4 >= |data| then Truncated
          else Decoded(r3 + 0x1000_0000 * Low4(data[at + 4]), at + 5)
  }

  function Low7(b: byte): nat
  {
    if b >= 128 then b - 128 else b
  }

  function Low4(b: byte): nat
  {
    b % 16
  }

  /** The same decoder without a limit on the number of bytes. */
  function DecodeAny(data: seq<byte>, at: nat): Decoded
    decreases |data| - at
  {
    if at >= |data| then Truncated
    else if data[at] <= 127 then Decoded(data[at], at + 1)
    else
      match DecodeAny(data, at + 1)
      case Truncated => Truncated
      case Decoded(value, next) => Decoded(Low7(data[at]) + 128 * value, next)
  }

  lemma {:induction false} AnyRoundTrip(before: seq<byte>, value: nat, after: seq<byte>)
    ensures DecodeAny(before + Uleb(value) + after, |before|) == Decoded(value, |before| + |Uleb(value)|)
    decreases value
  {
    var data := before + Uleb(value) + after;
    if value >= 128 {
      AnyRoundTrip(before + [value % 128 + 128], value / 128, after);
      assert data == before + [value % 128 + 128] + Uleb(value / 128) + after;
    }
  }

  /** Five bytes are enough for 32 bits, and the fifth holds at most four of them. */
  lemma {:induction false} UlebFits(value: nat)
    requires value < WORD
    ensures |Uleb(value)| <= 5 && (|Uleb(value)| == 5 ==> Uleb(value)[4] < 16)
  {
    var q1 := value / 128;
    UlebShorter(value, 0x200_0000);
    var q2 := q1 / 128;
    UlebShorter(q1, 0x4_0000);
    var q3 := q2 / 128;
    UlebShorter(q2, 0x800);
    UlebShorter(q3, 16);
  }

  lemma {:induction false} UlebShorter(value: nat, bound: nat)
    requires value < 128 * bound
    ensures value / 128 < bound
    ensures value >= 128 ==> Uleb(value)[1..] == Uleb(value / 128)
    ensures value < 128 ==> Uleb(value) == [value]
  {
  }

  /** Up to five bytes the two decoders agree. */
  lemma {:induction false} LimitedIsAny(data: seq<byte>, at: nat)
    requires DecodeAny(data, at).Decoded? && DecodeAny(data, at).next <= at + 5
    requires DecodeAny(data, at).next == at + 5 ==> at + 4 < |data| && data[at + 4] < 16
    ensures DecodeUleb(data, at) == DecodeAny(data, at)
  {
    AnyStep(data, at);
    AnyStep(data, at + 1);
    AnyStep(data, at + 2);
    AnyStep(data, at + 3);
    AnyStep(data, at + 4);
  }

  lemma {:induction false} AnyStep(data: seq<byte>, at: nat)
    ensures var r := DecodeAny(data, at);
            && (at >= |data| ==> r == Truncated)
            && (at < |data| && data[at] <= 127 ==> r == Decoded(data[at], at + 1))
            && (at < |data| && data[at] > 127 ==>
                  var rest := DecodeAny(data, at + 1);
                  r == if rest.Truncated? then Truncated else Decoded(data[at] - 128 + 128 * rest.value, rest.next))
            && (r.Decoded? ==> at < r.next <= |data|)
  {
    if at < |data| && data[at] > 127 { AnyProgress(data, at + 1); }
  }

  lemma {:induction false} AnyProgress(data: seq<byte>, at: nat)
    ensures DecodeAny(data, at).Decoded? ==> at < DecodeAny(data, at).next <= |data|
    decreases |data| - at
  {
    if at < |data| { AnyProgress(data, at + 1); }
  }

  /** Decoding at a position where an encoding stands gives the value and the position behind it. */
  lemma {:induction false} UlebRoundTrip(before: seq<byte>, value: nat, after: seq<byte>)
    requires value < WORD
    ensures DecodeUleb(before + Uleb(value) + after, |before|) == Decoded(value, |before| + |Uleb(value)|)
  {
    var data, at := before + Uleb(value) + after, |before|;
    AnyRoundTrip(before, value, after);
    UlebFits(value);
    if |Uleb(value)| == 5 { assert data[at + 4] == Uleb(value)[4]; }
    LimitedIsAny(data, at);
  }

  // ----- The list of locations -----

  /** Sorted locations whose gaps fit 32 bits. */
  predicate Encodable(locations: seq<nat>, address: nat)
  {
    locations != [] ==> 0 <= locations[0] - address < WORD && Encodable(locations[1..], locations[0])
  }

  function Deltas(locations: seq<nat>, address: nat): seq<byte>
    requires Encodable(locations, address)
  {
    if locations == [] then [] else Uleb(locations[0] - address) + Deltas(locations[1..], locations[0])
  }

  method EncodeOatPatches(locations: seq<nat>, dest: seq<byte>) returns (buffer: seq<byte>)
    requires Encodable(locations, 0)
    ensures buffer == dest + Deltas(locations, 0)
  {
    buffer := dest;
    var address := 0;
    for i := 0 to |locations|
      invariant Encodable(locations[i..], address)
      invariant buffer + Deltas(locations[i..], address) == dest + Deltas(locations, 0)
    {
      assert locations[i..][1..] == locations[i + 1..];
      buffer := EncodeUleb(buffer, locations[i] - address);
      address := locations[i];
    }
  }

  datatype Locations = Locations(value: seq<nat>) | Malformed

  /** The locations named by a patch list, read as the loader reads it. */
  function DecodePatches(data: seq<byte>, at: nat, address: nat): Locations
    decreases |data| - at
  {
    if at >= |data| then Locations([])
    else
      match DecodeUleb(data, at)
      case Truncated => Malformed
      case Decoded(value, next) =>
        match DecodePatches(data, next, address + value)
        case Malformed => Malformed
        case Locations(rest) => Locations([address + value] + rest)
  }

  lemma {:induction false} DecodesFrom(before: seq<byte>, locations: seq<nat>, address: nat)
    requires Encodable(locations, address)
    ensures DecodePatches(before + Deltas(locations, address), |before|, address) == Locations(locations)
    decreases |locations|
  {
    if locations != [] {
      var value, tail := locations[0] - address, locations[1..];
      var rest := Deltas(tail, locations[0]);
      FirstDelta(before, Uleb(value), rest);
      DecodesFrom(before + Uleb(value), tail, locations[0]);
      UlebRoundTrip(before, value, rest);
      DecodesNext(before + Uleb(value) + rest, |before|, address, value, |before + Uleb(value)|, tail);
      assert [locations[0]] + tail == locations;
    }
  }

  lemma {:induction false} FirstDelta(before: seq<byte>, code: seq<byte>, rest: seq<byte>)
    ensures before + (code + rest) == before + code + rest
  {
  }

  lemma {:induction false} DecodesNext(data: seq<byte>, at: nat, address: nat, value: nat, next: nat, rest: seq<nat>)
    requires at < |data| && DecodeUleb(data, at) == Decoded(value, next)
    requires DecodePatches(data, next, address + value) == Locations(rest)
    ensures DecodePatches(data, at, address) == Locations([address + value] + rest)
  {
  }

  /** Reading an encoded patch list gives back exactly the locations it was made from. */
  lemma {:induction false} TheoremPatchListRoundTrip(locations: seq<nat>)
    requires Encodable(locations, 0)
    ensures DecodePatches(Deltas(locations, 0), 0, 0) == Locations(locations)
  {
    DecodesFrom([], locations, 0);
    assert [] + Deltas(locations, 0) == Deltas(locations, 0);
  }

  // ----- Applying a list -----

  /** The word at `at` moved by `delta`, modulo 2^32. */
  function Shifted(section: seq<byte>, at: nat, delta: nat): (r: seq<byte>)
    requires at + 4 <= |section| && delta < WORD
    ensures |r| == |section|
  {
    section[..at] + Le32(Add32(Read32(section, at), delta)) + section[at + 4..]
  }

  predicate InsideSection(section: seq<byte>, locations: seq<nat>)
  {
    forall i :: 0 <= i < |locations| ==> locations[i] + 4 <= |section|
  }

  function Relocated(section: seq<byte>, locations: seq<nat>, delta: nat): (r: seq<byte>)
    requires InsideSection(section, locations) && delta < WORD
    ensures |r| == |section|
    decreases |locations|
  {
    if locations == [] then section else Relocated(Shifted(section, locations[0], delta), locations[1..], delta)
  }

  /** The next delta of a list and what follows it. */
  lemma {:induction false} NextPatch(patches: seq<byte>, at: nat, locations: seq<nat>, address: nat)
    requires at < |patches| && Encodable(locations, address) && patches[at..] == Deltas(locations, address)
    ensures locations != []
    ensures var next := at + |Uleb(locations[0] - address)|;
            && DecodeUleb(patches, at) == Decoded(locations[0] - address, next)
            && next <= |patches| && patches[next..] == Deltas(locations[1..], locations[0])
  {
    var code, rest := Uleb(locations[0] - address), Deltas(locations[1..], locations[0]);
    assert patches == patches[..at] + patches[at..];
    assert patches == patches[..at] + code + rest;
    UlebRoundTrip(patches[..at], locations[0] - address, rest);
  }

  method ApplyOatPatches(patches: seq<byte>, ghost locations: seq<nat>, delta: nat, section: array<byte>)
    requires Encodable(locations, 0) && patches == Deltas(locations, 0) && delta < WORD
    requires InsideSection(section[..], locations)
    modifies section
    ensures section[..] == Relocated(old(section[..]), locations, delta)
  {
    var at: nat, toPatch: nat := 0, 0;
    ghost var rest := locations;
    while at < |patches|
      invariant at <= |patches|
      invariant Encodable(rest, toPatch) && patches[at..] == Deltas(rest, toPatch)
      invariant InsideSection(section[..], rest)
      invariant Relocated(section[..], rest, delta) == Relocated(old(section[..]), locations, delta)
      decreases |rest|
    {
      NextPatch(patches, at, rest, toPatch);
      var decoded := DecodeUleb(patches, at);
      toPatch := toPatch + decoded.value;
      at := decoded.next;
      ShiftWord(section, toPatch, delta);
      rest := rest[1..];
    }
  }

  method ShiftWord(section: array<byte>, at: nat, delta: nat)
    requires at + 4 <= section.Length && delta < WORD
    modifies section
    ensures section[..] == Shifted(old(section[..]), at, delta)
  {
    var word := Le32(Add32(Read32(section[..], at), delta));
    section[at], section[at + 1], section[at + 2], section[at + 3] := word[0], word[1], word[2], word[3];
  }

  /** Locations at least a word apart. */
  predicate Spaced(locations: seq<nat>)
  {
    forall i, j :: 0 <= i < j < |locations| ==> locations[i] + 4 <= locations[j]
  }

  /** No patched word covers byte `i`. */
  predicate Outside(locations: seq<nat>, i: nat)
  {
    forall k :: 0 <= k < |locations| ==> i < locations[k] || locations[k] + 4 <= i
  }

  lemma {:induction false} OutsideKept(section: seq<byte>, locations: seq<nat>, delta: nat, i: nat)
    requires InsideSection(section, locations) && delta < WORD && i < |section| && Outside(locations, i)
    ensures Relocated(section, locations, delta)[i] == section[i]
    decreases |locations|
  {
    if locations != [] {
      var rest := locations[1..];
      assert forall k :: 0 <= k < |rest| ==> rest[k] == locations[k + 1];
      ShiftedWord(section, locations[0], delta);
      OutsideKept(Shifted(section, locations[0], delta), rest, delta, i);
    }
  }

  lemma {:induction false} ShiftedWord(section: seq<byte>, at: nat, delta: nat)
    requires at + 4 <= |section| && delta < WORD
    ensures Read32(Shifted(section, at, delta), at) == Add32(Read32(section, at), delta)
    ensures forall i :: 0 <= i < |section| && (i < at || at + 4 <= i) ==> Shifted(section, at, delta)[i] == section[i]
  {
    var word := Le32(Add32(Read32(section, at), delta));
    var r := Shifted(section, at, delta);
    assert r[at..at + 4] == word == word[0..4];
    Read32Local(r, at, word, 0);
  }

  lemma {:induction false} WordMoved(section: seq<byte>, locations: seq<nat>, delta: nat, k: nat)
    requires InsideSection(section, locations) && delta < WORD && Spaced(locations) && k < |locations|
    ensures Read32(Relocated(section, locations, delta), locations[k]) == Add32(Read32(section, locations[k]), delta)
    decreases |locations|
  {
    var l, rest := locations[0], locations[1..];
    var once := Shifted(section, l, delta);
    var r := Relocated(once, rest, delta);
    assert forall j :: 0 <= j < |rest| ==> rest[j] == locations[j + 1];
    ShiftedWord(section, l, delta);
    if k == 0 {
      forall i | l <= i < l + 4
        ensures r[i] == once[i]
      {
        OutsideKept(once, rest, delta, i);
      }
      assert r[l..l + 4] == once[l..l + 4];
      Read32Local(r, l, once, l);
    } else {
      WordMoved(once, rest, delta, k - 1);
      assert once[locations[k]..locations[k] + 4] == section[locations[k]..locations[k] + 4];
      Read32Local(once, locations[k], section, locations[k]);
    }
  }

  /** Relocating by a delta and then by its negation restores the section. */
  lemma {:induction false} TheoremRelocationInverts(section: seq<byte>, locations: seq<nat>, delta: nat)
    requires InsideSection(section, locations) && delta < WORD && Spaced(locations)
    ensures Relocated(Relocated(section, locations, delta), locations, Sub32(0, delta)) == section
  {
    var there := Relocated(section, locations, delta);
    var back := Relocated(there, locations, Sub32(0, delta));
    forall i | 0 <= i < |section|
      ensures back[i] == section[i]
    {
      if Outside(locations, i) {
        OutsideKept(section, locations, delta, i);
        OutsideKept(there, locations, Sub32(0, delta), i);
      } else {
        var k :| 0 <= k < |locations| && locations[k] <= i < locations[k] + 4;
        WordMoved(section, locations, delta, k);
        WordMoved(there, locations, Sub32(0, delta), k);
        MovedBack(Read32(section, locations[k]), delta);
        SameByte(back, section, locations[k], i);
      }
    }
  }

  lemma {:induction false} MovedBack(word: nat, delta: nat)
    requires word < WORD && delta < WORD
    ensures Add32(Add32(word, delta), Sub32(0, delta)) == word
  {
  }

  lemma {:induction false} SameByte(a: seq<byte>, b: seq<byte>, at: nat, i: nat)
    requires at + 4 <= |a| && at + 4 <= |b| && at <= i < at + 4 && Read32(a, at) == Read32(b, at)
    ensures a[i] == b[i]
  {
    WordInjective(a, b, at);
    assert a[i] == a[at..at + 4][i - at] && b[i] == b[at..at + 4][i - at];
  }
}

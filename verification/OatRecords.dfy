/** What the Init code pass records besides offsets: the locations of absolute patches and the
    address range of every method for debug information. */
module OatRecords {
  import opened Bytes
  import opened CompiledMethods
  import opened OatCode
  import opened OatCodeAgreement
  import opened OatCodeTheorem
  import PatchList

  // ----- Address ranges -----

  /** A new method starts behind everything placed before it. */
  lemma {:induction false} NewCodeBehind(cfg: Config, st: InitState, v: Visited)
    requires !Shares(cfg, st, v)
    ensures |InitVisit(cfg, st, v).placed| == |st.placed| + 1
    ensures Start(cfg, InitVisit(cfg, st, v).placed[|st.placed|]) >= st.offset + HEADER_SIZE
    ensures InitVisit(cfg, st, v).offset == Start(cfg, InitVisit(cfg, st, v).placed[|st.placed|]) + cfg.Size(v.m)
  {
    ReserveCases(cfg, st.patcher, st.methods, st.offset, v);
  }

  lemma {:induction false} SlotOf(cfg: Config, base: nat, vs: seq<Visited>, i: nat)
    requires i < |vs|
    ensures |InitPass(cfg, base, vs).placed| == |vs| && |At(cfg, base, vs, i + 1).placed| == i + 1
    ensures InitPass(cfg, base, vs).placed[i] == At(cfg, base, vs, i + 1).placed[i]
    ensures InitPass(cfg, base, vs).placed[i].m == vs[i].m
  {
    assert vs[..|vs|] == vs;
    AtPrefix(cfg, base, vs, i + 1, |vs|);
    AtTracks(cfg, base, vs, i + 1);
    var placed := InitPass(cfg, base, vs).placed;
    assert placed[i] == placed[..i + 1][i];
  }

  function RangeStart(cfg: Config, base: nat, vs: seq<Visited>, i: nat): int
    requires i < |vs|
  {
    if |InitPass(cfg, base, vs).placed| == |vs| then Start(cfg, InitPass(cfg, base, vs).placed[i]) else 0
  }

  /** The ranges of distinct code are strictly increasing and do not even touch: a header lies between. */
  lemma {:induction false} TheoremRangesDisjoint(cfg: Config, base: nat, vs: seq<Visited>, i: nat, j: nat)
    requires i < j < |vs| && !Repeat(cfg, vs, i) && !Repeat(cfg, vs, j)
    ensures RangeStart(cfg, base, vs, i) + cfg.Size(vs[i].m) + HEADER_SIZE <= RangeStart(cfg, base, vs, j)
  {
    RangeEnds(cfg, base, vs, i);
    RangeEnds(cfg, base, vs, j);
    AtPrefix(cfg, base, vs, i + 1, j);
  }

  lemma {:induction false} RangeEnds(cfg: Config, base: nat, vs: seq<Visited>, i: nat)
    requires i < |vs| && !Repeat(cfg, vs, i)
    ensures RangeStart(cfg, base, vs, i) >= At(cfg, base, vs, i).offset + HEADER_SIZE
    ensures RangeStart(cfg, base, vs, i) + cfg.Size(vs[i].m) == At(cfg, base, vs, i + 1).offset
  {
    SlotOf(cfg, base, vs, i);
    SharesIsRepeat(cfg, base, vs, i);
    AtStep(cfg, base, vs, i);
    AtTracks(cfg, base, vs, i);
    NewCodeBehind(cfg, At(cfg, base, vs, i), vs[i]);
  }

  /** A repeated method has exactly the range of the first method with its key. */
  lemma {:induction false} TheoremRepeatsShareRange(cfg: Config, base: nat, vs: seq<Visited>, i: nat) returns (j: nat)
    requires i < |vs| && Repeat(cfg, vs, i)
    ensures j < i && !Repeat(cfg, vs, j) && KeyOf(vs[j].m) == KeyOf(vs[i].m)
    ensures RangeStart(cfg, base, vs, i) == RangeStart(cfg, base, vs, j)
    ensures cfg.Size(vs[i].m) == cfg.Size(vs[j].m)
  {
    j := FirstOccurrence(cfg, vs, i);
    SlotOf(cfg, base, vs, i);
    SlotOf(cfg, base, vs, j);
    assert vs[..|vs|] == vs;
    AtInv(cfg, base, vs, |vs|);
    var st := At(cfg, base, vs, |vs|);
    assert st.placed[i].codeOffset == st.codeMap[KeyOf(vs[i].m)];
    assert st.placed[j].codeOffset == st.codeMap[KeyOf(vs[j].m)];
  }

  /** Two methods share an offset exactly when code is being shared and their keys agree, so code, patches
      and tables of methods at one offset are the same. */
  lemma {:induction false} TheoremSharedOffsets(cfg: Config, base: nat, vs: seq<Visited>, i: nat, j: nat)
    requires i < j < |vs| && NonEmptyCode(cfg, vs)
    ensures RangeStart(cfg, base, vs, i) == RangeStart(cfg, base, vs, j) <==>
            !cfg.debuggable && KeyOf(vs[i].m) == KeyOf(vs[j].m)
  {
    var i' := FirstOccurrence(cfg, vs, i);
    var j' := FirstOccurrence(cfg, vs, j);
    SameAsFirst(cfg, base, vs, i, i');
    SameAsFirst(cfg, base, vs, j, j');
    if i' < j' {
      TheoremRangesDisjoint(cfg, base, vs, i', j');
      assert cfg.debuggable || KeyOf(vs[i'].m) != KeyOf(vs[j'].m);
    } else if j' < i' {
      TheoremRangesDisjoint(cfg, base, vs, j', i');
      assert cfg.debuggable || KeyOf(vs[i'].m) != KeyOf(vs[j'].m);
    } else {
      assert Repeat(cfg, vs, j);
    }
  }

  lemma {:induction false} SameAsFirst(cfg: Config, base: nat, vs: seq<Visited>, i: nat, j: nat)
    requires j <= i < |vs| && KeyOf(vs[j].m) == KeyOf(vs[i].m) && (Repeat(cfg, vs, i) || i == j)
    ensures RangeStart(cfg, base, vs, i) == RangeStart(cfg, base, vs, j)
  {
    SlotOf(cfg, base, vs, i);
    SlotOf(cfg, base, vs, j);
    assert vs[..|vs|] == vs;
    AtInv(cfg, base, vs, |vs|);
    var st := At(cfg, base, vs, |vs|);
    if i != j {
      assert st.placed[i].codeOffset == st.codeMap[KeyOf(vs[i].m)];
      assert st.placed[j].codeOffset == st.codeMap[KeyOf(vs[j].m)];
    }
  }

  // ----- Locations of absolute patches -----

  /** Locations of the patches that are not PC-relative, counted from the executable offset `exec`. */
  function LocationsOf(patches: seq<LinkerPatch>, codeStart: int, exec: nat): seq<int>
  {
    if patches == [] then []
    else
      var rest := LocationsOf(patches[1..], codeStart, exec);
      if patches[0].IsPcRelative() then rest else [codeStart - exec + patches[0].literalOffset] + rest
  }

  /** Records the locations of a new method behind those known. */
  method RecordPatchLocations(m: CompiledMethod, codeStart: int, exec: nat, known: seq<int>)
    returns (locations: seq<int>)
    ensures locations == known + LocationsOf(m.patches, codeStart, exec)
  {
    locations := known;
    for i := 0 to |m.patches|
      invariant locations + LocationsOf(m.patches[i..], codeStart, exec) ==
                known + LocationsOf(m.patches, codeStart, exec)
    {
      assert m.patches[i..][1..] == m.patches[i + 1..];
      if !m.patches[i].IsPcRelative() {
        locations := locations + [codeStart - exec + m.patches[i].literalOffset];
      }
    }
  }

  function PatchLocations(cfg: Config, placed: seq<Placed>, exec: nat): seq<int>
  {
    if placed == [] then []
    else
      var p, before := placed[|placed| - 1], PatchLocations(cfg, placed[..|placed| - 1], exec);
      if p.first then before + LocationsOf(p.m.patches, Start(cfg, p), exec) else before
  }

  /** Room for at least one byte. */
  function Room(gap: nat): nat
  {
    if gap == 0 then 1 else gap
  }

  /** In order, at least `gap` apart, with as much room in front of `hi`. */
  predicate Ascending(s: seq<int>, lo: int, hi: int, gap: nat)
  {
    && (forall i, j :: 0 <= i < j < |s| ==> s[i] + gap <= s[j])
    && (forall i :: 0 <= i < |s| ==> lo <= s[i] && s[i] + Room(gap) <= hi)
  }

  /** Patches in the order of their positions, at least `gap` apart, all inside the code. */
  predicate PatchesSorted(m: CompiledMethod, size: nat, gap: nat)
  {
    && (forall i, j :: 0 <= i < j < |m.patches| ==> m.patches[i].literalOffset + gap <= m.patches[j].literalOffset)
    && (forall i :: 0 <= i < |m.patches| ==> m.patches[i].literalOffset + Room(gap) <= size)
  }

  predicate AllSorted(cfg: Config, vs: seq<Visited>, gap: nat)
  {
    forall i :: 0 <= i < |vs| ==> PatchesSorted(vs[i].m, cfg.Size(vs[i].m), gap)
  }

  lemma {:induction false} LocationsAscend(patches: seq<LinkerPatch>, codeStart: int, exec: nat, lo: nat, size: nat,
                                           gap: nat)
    requires forall i, j :: 0 <= i < j < |patches| ==> patches[i].literalOffset + gap <= patches[j].literalOffset
    requires forall i :: 0 <= i < |patches| ==>
               lo <= patches[i].literalOffset && patches[i].literalOffset + Room(gap) <= size
    ensures Ascending(LocationsOf(patches, codeStart, exec), codeStart - exec + lo, codeStart - exec + size, gap)
  {
    if patches != [] {
      var tail := patches[1..];
      assert forall i :: 0 <= i < |tail| ==> tail[i] == patches[i + 1];
      LocationsAscend(tail, codeStart, exec, patches[0].literalOffset + gap, size, gap);
    }
  }

  lemma {:induction false} AscendJoin(a: seq<int>, b: seq<int>, lo: int, mid: int, mid': int, hi: int, gap: nat)
    requires Ascending(a, lo, mid, gap) && Ascending(b, mid', hi, gap) && lo <= mid <= mid' <= hi
    ensures Ascending(a + b, lo, hi, gap)
  {
  }

  lemma {:induction false} LocationsStep(cfg: Config, st: InitState, v: Visited, st': InitState, exec: nat, gap: nat)
    requires exec <= st.offset && PatchesSorted(v.m, cfg.Size(v.m), gap) && st' == InitVisit(cfg, st, v)
    requires Ascending(PatchLocations(cfg, st.placed, exec), 0, st.offset - exec, gap)
    ensures exec <= st'.offset && Ascending(PatchLocations(cfg, st'.placed, exec), 0, st'.offset - exec, gap)
  {
    VisitGrows(cfg, st, v);
    var p := st'.placed[|st.placed|];
    if Shares(cfg, st, v) {
      assert !p.first;
    } else {
      NewCodeBehind(cfg, st, v);
      LocationsAscend(p.m.patches, Start(cfg, p), exec, 0, cfg.Size(p.m), gap);
      AscendJoin(PatchLocations(cfg, st.placed, exec), LocationsOf(p.m.patches, Start(cfg, p), exec),
                 0, st.offset - exec, Start(cfg, p) - exec, st'.offset - exec, gap);
    }
  }

  /** After `k` methods the recorded locations are in order and inside what has been laid out. */
  lemma {:induction false} LocationsUpTo(cfg: Config, base: nat, exec: nat, vs: seq<Visited>, k: nat, gap: nat)
    requires exec <= base && k <= |vs| && AllSorted(cfg, vs, gap)
    ensures exec <= At(cfg, base, vs, k).offset
    ensures Ascending(PatchLocations(cfg, At(cfg, base, vs, k).placed, exec), 0, At(cfg, base, vs, k).offset - exec,
                      gap)
  {
    if k > 0 {
      LocationsUpTo(cfg, base, exec, vs, k - 1, gap);
      AtStep(cfg, base, vs, k - 1);
      LocationsStep(cfg, At(cfg, base, vs, k - 1), vs[k - 1], At(cfg, base, vs, k), exec, gap);
    }
  }

  lemma {:induction false} AscendingEncodable(s: seq<nat>, address: nat, hi: nat)
    requires Ascending(s, address, hi, 0) && hi <= WORD
    ensures PatchList.Encodable(s, address)
  {
    if s != [] {
      assert forall i :: 0 <= i < |s[1..]| ==> s[1..][i] == s[i + 1];
      AscendingEncodable(s[1..], s[0], hi);
    }
  }

  /** The patch locations of a whole file come out in order, so their list can be encoded, and the loader
      reads back exactly these locations. */
  lemma {:induction false} TheoremPatchLocations(cfg: Config, base: nat, exec: nat, vs: seq<Visited>)
    requires exec <= base && At(cfg, base, vs, |vs|).offset - exec <= WORD
    requires AllSorted(cfg, vs, 0)
    ensures var locations := PatchLocations(cfg, InitPass(cfg, base, vs).placed, exec);
            && (forall i :: 0 <= i < |locations| ==> 0 <= locations[i])
            && PatchList.Encodable(locations, 0)
            && PatchList.DecodePatches(PatchList.Deltas(locations, 0), 0, 0) == PatchList.Locations(locations)
  {
    assert vs[..|vs|] == vs;
    LocationsUpTo(cfg, base, exec, vs, |vs|, 0);
    var locations := PatchLocations(cfg, InitPass(cfg, base, vs).placed, exec);
    AscendingEncodable(locations, 0, At(cfg, base, vs, |vs|).offset - exec);
    PatchList.TheoremPatchListRoundTrip(locations);
  }

  // ----- Which patches are listed -----

  /** A patch whose word holds an address: a method, a type, or the code of a call. */
  predicate HoldsAddress(p: LinkerPatch)
  {
    p.kind == PatchMethod || p.kind == PatchCall || p.kind == PatchType
  }

  /** Patch `k` of code at `codeStart` is an address at `x`, counted from the executable offset. */
  predicate AddressAt(patches: seq<LinkerPatch>, k: nat, codeStart: int, exec: nat, x: int)
  {
    k < |patches| && HoldsAddress(patches[k]) && x == codeStart - exec + patches[k].literalOffset
  }

  /** Method `i` is not repeated, and its patch `k` is an address at `x`. */
  ghost predicate Listed(cfg: Config, base: nat, exec: nat, vs: seq<Visited>, i: nat, k: nat, x: int)
  {
    i < |vs| && !Repeat(cfg, vs, i) && AddressAt(vs[i].m.patches, k, RangeStart(cfg, base, vs, i), exec, x)
  }

  lemma {:induction false} LocationsOfExact(patches: seq<LinkerPatch>, codeStart: int, exec: nat, x: int)
    ensures x in LocationsOf(patches, codeStart, exec) <==> exists k: nat :: AddressAt(patches, k, codeStart, exec, x)
  {
    if patches != [] {
      var tail := patches[1..];
      LocationsOfExact(tail, codeStart, exec, x);
      if k: nat :| AddressAt(tail, k, codeStart, exec, x) { assert AddressAt(patches, k + 1, codeStart, exec, x); }
      if k: nat :| AddressAt(patches, k, codeStart, exec, x) {
        if k == 0 {
          assert !patches[0].IsPcRelative();
        } else {
          assert AddressAt(tail, k - 1, codeStart, exec, x);
        }
      }
      if !patches[0].IsPcRelative() && x == codeStart - exec + patches[0].literalOffset {
        assert AddressAt(patches, 0, codeStart, exec, x);
      }
    }
  }

  /** Entry `i` of `placed` is new code with an address at `x`. */
  ghost predicate ListedIn(cfg: Config, placed: seq<Placed>, exec: nat, i: nat, x: int)
  {
    i < |placed| && placed[i].first && x in LocationsOf(placed[i].m.patches, Start(cfg, placed[i]), exec)
  }

  lemma {:induction false} PatchLocationsExact(cfg: Config, placed: seq<Placed>, exec: nat, x: int)
    ensures x in PatchLocations(cfg, placed, exec) <==> exists i: nat :: ListedIn(cfg, placed, exec, i, x)
  {
    if placed != [] {
      var n := |placed| - 1;
      PatchLocationsExact(cfg, placed[..n], exec, x);
      if i: nat :| ListedIn(cfg, placed[..n], exec, i, x) { assert ListedIn(cfg, placed, exec, i, x); }
      if i: nat :| ListedIn(cfg, placed, exec, i, x) {
        if i < n { assert ListedIn(cfg, placed[..n], exec, i, x); }
      }
      if placed[n].first && x in LocationsOf(placed[n].m.patches, Start(cfg, placed[n]), exec) {
        assert ListedIn(cfg, placed, exec, n, x);
      }
    }
  }

  lemma {:induction false} Recorded(cfg: Config, base: nat, vs: seq<Visited>)
    ensures |InitPass(cfg, base, vs).placed| == |vs|
  {
    assert vs[..|vs|] == vs;
    AtTracks(cfg, base, vs, |vs|);
  }

  /** The list names exactly the words that hold addresses in code that is not repeated. */
  lemma {:induction false} TheoremLocationsExact(cfg: Config, base: nat, exec: nat, vs: seq<Visited>, x: int)
    ensures x in PatchLocations(cfg, InitPass(cfg, base, vs).placed, exec) <==>
            exists i: nat, k: nat :: Listed(cfg, base, exec, vs, i, k, x)
  {
    var placed := InitPass(cfg, base, vs).placed;
    PatchLocationsExact(cfg, placed, exec, x);
    Recorded(cfg, base, vs);
    if i: nat :| ListedIn(cfg, placed, exec, i, x) {
      SlotOf(cfg, base, vs, i);
      FirstIsNotRepeat(cfg, base, vs, i);
      LocationsOfExact(vs[i].m.patches, Start(cfg, placed[i]), exec, x);
      var k: nat :| AddressAt(vs[i].m.patches, k, Start(cfg, placed[i]), exec, x);
      assert Listed(cfg, base, exec, vs, i, k, x);
    }
    if i: nat, k: nat :| Listed(cfg, base, exec, vs, i, k, x) {
      SlotOf(cfg, base, vs, i);
      FirstIsNotRepeat(cfg, base, vs, i);
      LocationsOfExact(vs[i].m.patches, Start(cfg, placed[i]), exec, x);
      assert ListedIn(cfg, placed, exec, i, x);
    }
  }

  /** How many of the first `n` patches hold addresses. */
  function AddressCount(patches: seq<LinkerPatch>, n: nat): nat
    requires n <= |patches|
  {
    if n == 0 then 0 else AddressCount(patches, n - 1) + (if HoldsAddress(patches[n - 1]) then 1 else 0)
  }

  /** How many addresses the first `n` methods have in code that is not repeated. */
  ghost function AllAddresses(cfg: Config, vs: seq<Visited>, n: nat): nat
    requires n <= |vs|
  {
    if n == 0 then 0
    else AllAddresses(cfg, vs, n - 1) +
         (if Repeat(cfg, vs, n - 1) then 0 else AddressCount(vs[n - 1].m.patches, |vs[n - 1].m.patches|))
  }

  lemma {:induction false} CountTail(patches: seq<LinkerPatch>, n: nat)
    requires 0 < n <= |patches|
    ensures AddressCount(patches, n) == (if HoldsAddress(patches[0]) then 1 else 0) + AddressCount(patches[1..], n - 1)
  {
    if n > 1 { CountTail(patches, n - 1); }
  }

  lemma {:induction false} LocationsOfCount(patches: seq<LinkerPatch>, codeStart: int, exec: nat)
    ensures |LocationsOf(patches, codeStart, exec)| == AddressCount(patches, |patches|)
  {
    if patches != [] {
      LocationsOfCount(patches[1..], codeStart, exec);
      CountTail(patches, |patches|);
    }
  }

  lemma {:induction false} LocationsCountUpTo(cfg: Config, base: nat, exec: nat, vs: seq<Visited>, n: nat)
    requires n <= |vs|
    ensures var placed := InitPass(cfg, base, vs).placed;
            |placed| == |vs| && |PatchLocations(cfg, placed[..n], exec)| == AllAddresses(cfg, vs, n)
  {
    Recorded(cfg, base, vs);
    if n > 0 {
      var placed := InitPass(cfg, base, vs).placed;
      LocationsCountUpTo(cfg, base, exec, vs, n - 1);
      SlotOf(cfg, base, vs, n - 1);
      FirstIsNotRepeat(cfg, base, vs, n - 1);
      LocationsOfCount(vs[n - 1].m.patches, Start(cfg, placed[n - 1]), exec);
      assert placed[..n][..n - 1] == placed[..n - 1];
    }
  }

  /** And it names each of them once. */
  lemma {:induction false} TheoremLocationsCount(cfg: Config, base: nat, exec: nat, vs: seq<Visited>)
    ensures |PatchLocations(cfg, InitPass(cfg, base, vs).placed, exec)| == AllAddresses(cfg, vs, |vs|)
  {
    LocationsCountUpTo(cfg, base, exec, vs, |vs|);
    var placed := InitPass(cfg, base, vs).placed;
    assert placed[..|vs|] == placed;
  }

  // ----- What the loader does with the list -----

  /** The byte at `i` of the executable section belongs to no address. */
  ghost predicate NoAddress(cfg: Config, base: nat, exec: nat, vs: seq<Visited>, i: nat)
  {
    forall m: nat, k: nat, x :: Listed(cfg, base, exec, vs, m, k, x) ==> i < x || x + 4 <= i
  }

  lemma {:induction false} ListIsSpaced(cfg: Config, base: nat, exec: nat, vs: seq<Visited>, locations: seq<nat>,
                                        section: seq<byte>)
    requires exec <= base && AllSorted(cfg, vs, 4) &&
             locations == PatchLocations(cfg, InitPass(cfg, base, vs).placed, exec)
    requires |section| >= At(cfg, base, vs, |vs|).offset - exec
    ensures PatchList.Spaced(locations) && PatchList.InsideSection(section, locations)
  {
    assert vs[..|vs|] == vs;
    LocationsUpTo(cfg, base, exec, vs, |vs|, 4);
  }

  /** A section relocated by the list of its file has every address of its code moved, and nothing else. */
  lemma {:induction false} TheoremLoaderMovesAddresses(cfg: Config, base: nat, exec: nat, vs: seq<Visited>,
                                                       locations: seq<nat>, section: seq<byte>, delta: nat)
    requires exec <= base && AllSorted(cfg, vs, 4) &&
             locations == PatchLocations(cfg, InitPass(cfg, base, vs).placed, exec)
    requires |section| >= At(cfg, base, vs, |vs|).offset - exec && delta < WORD
    ensures PatchList.InsideSection(section, locations)
    ensures var r := PatchList.Relocated(section, locations, delta);
            && (forall i: nat, k: nat, x :: Listed(cfg, base, exec, vs, i, k, x) ==>
                  0 <= x && x + 4 <= |section| && Read32(r, x) == Add32(Read32(section, x), delta))
            && (forall i :: 0 <= i < |section| && NoAddress(cfg, base, exec, vs, i) ==> r[i] == section[i])
  {
    ListIsSpaced(cfg, base, exec, vs, locations, section);
    var r := PatchList.Relocated(section, locations, delta);
    forall i: nat, k: nat, x | Listed(cfg, base, exec, vs, i, k, x)
      ensures 0 <= x && x + 4 <= |section| && Read32(r, x) == Add32(Read32(section, x), delta)
    {
      TheoremLocationsExact(cfg, base, exec, vs, x);
      var n :| 0 <= n < |locations| && locations[n] == x;
      PatchList.WordMoved(section, locations, delta, n);
    }
    forall i | 0 <= i < |section| && NoAddress(cfg, base, exec, vs, i) ensures r[i] == section[i] {
      OutsideList(cfg, base, exec, vs, locations, i);
      PatchList.OutsideKept(section, locations, delta, i);
    }
  }

  lemma {:induction false} OutsideList(cfg: Config, base: nat, exec: nat, vs: seq<Visited>, locations: seq<nat>, i: nat)
    requires locations == PatchLocations(cfg, InitPass(cfg, base, vs).placed, exec)
    requires NoAddress(cfg, base, exec, vs, i)
    ensures PatchList.Outside(locations, i)
  {
    forall n | 0 <= n < |locations| ensures i < locations[n] || locations[n] + 4 <= i {
      TheoremLocationsExact(cfg, base, exec, vs, locations[n]);
      var m: nat, k: nat :| Listed(cfg, base, exec, vs, m, k, locations[n]);
    }
  }
}

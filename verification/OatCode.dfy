/** The two code passes of the oat writer as functions: the Init pass assigns an offset to
    every compiled method and shares equal code; the Write pass emits thunks, padding, method
    headers and code, and recognises the first occurrence of a blob by comparing offsets only. */
module OatCode {
  import opened Align
  import opened Bytes
  import opened CompiledMethods

  datatype Isa = Thumb2 | Arm64 | X86 | X86_64 | Mips | Mips64

  function Alignment(isa: Isa): nat
  {
    match isa
    case Thumb2 | Mips | Mips64 => 8
    case Arm64 | X86 | X86_64 => 16
  }

  /** The distance from the start of the code to a usable PC: the Thumb mode bit. */
  function CodeDelta(isa: Isa): nat
  {
    if isa == Thumb2 then 1 else 0
  }

  /** Seven 32-bit fields. */
  const HEADER_SIZE: nat := 28

  datatype MethodRef = MethodRef(dexFile: Ptr, index: nat)

  /** Header fields that locate the three tables of a method. */
  datatype Tables = Tables(mapping: nat, vmap: nat, gcMap: nat)

  datatype Header = Header(tables: Tables, frameSize: nat, coreSpillMask: nat, fpSpillMask: nat, codeSize: nat)

  /** A compiled method as both passes meet it, with the header fields left by the map passes. */
  datatype Visited = Visited(ref: MethodRef, m: CompiledMethod, tables: Tables)

  /** `mem` gives the bytes of an array; `resolve` the instruction word a patch leaves behind,
      from the patch, the offset of the patched word and its old value. */
  datatype Config = Config(
    isa: Isa, debuggable: bool, thunk: seq<byte>,
    mem: Ptr -> seq<byte>, resolve: (LinkerPatch, nat, nat) -> nat)
  {
    function Size(m: CompiledMethod): nat {
      |mem(m.code)|
    }

    function Delta(): nat {
      CodeDelta(isa)
    }

    function AlignCode(offset: nat): (r: nat)
      ensures offset <= r < offset + 16
    {
      if Alignment(isa) == 8 then RoundUp8(offset) else RoundUp16(offset)
    }

    /** Only the ARM patchers reserve space for call thunks. */
    predicate HasThunks() {
      isa == Thumb2 || isa == Arm64
    }

    function MaxPositive(): nat {
      if isa == Thumb2 then 0x100_0002 else 0x7ff_fffc
    }

    function MaxNegative(): nat {
      if isa == Thumb2 then 0xff_fffc else 0x800_0000
    }
  }

  // ----- The relative patcher -----

  datatype Pending = Pending(ref: MethodRef, offset: nat)

  datatype Patcher = Patcher(thunks: seq<nat>, unprocessed: seq<Pending>)

  /** Unsigned 32-bit difference. */
  function Diff(a: int, b: int): nat
  {
    (a - b) % WORD
  }

  /** Drops calls that need no thunk; stops at an unresolved target or one too far back.
      Returns whether a thunk is needed and the calls still unprocessed. */
  function ProcessPatches(cfg: Config, thunks: seq<nat>, queue: seq<Pending>, methods: map<MethodRef, nat>,
                          codeOffset: nat, ref: MethodRef, next: nat): (r: (bool, seq<Pending>))
    ensures |r.1| <= |queue| && r.1 == queue[|queue| - |r.1|..]
    decreases |queue|
  {
    if queue == [] then (false, queue)
    else
      var c := queue[0];
      if c.ref == ref then
        if Diff(codeOffset, c.offset) > cfg.MaxPositive() then (true, queue)
        else ProcessPatches(cfg, thunks, queue[1..], methods, codeOffset, ref, next)
      else if c.ref !in methods then
        if thunks == [] || Diff(c.offset, thunks[|thunks| - 1]) > cfg.MaxNegative() then
          (Diff(next, c.offset) > cfg.MaxPositive(), queue)
        else ProcessPatches(cfg, thunks, queue[1..], methods, codeOffset, ref, next)
      else
        var target := Diff(methods[c.ref], cfg.Delta());
        if target >= c.offset then
          ProcessPatches(cfg, thunks, queue[1..], methods, codeOffset, ref, next)
        else
          var nearest := if thunks != [] && thunks[|thunks| - 1] > target then thunks[|thunks| - 1] else target;
          if Diff(c.offset, nearest) > cfg.MaxNegative() then (true, queue)
          else ProcessPatches(cfg, thunks, queue[1..], methods, codeOffset, ref, next)
  }

  /** The relative calls of a method whose code starts at `codeOffset`. */
  function Calls(patches: seq<LinkerPatch>, codeOffset: nat): seq<Pending>
  {
    if patches == [] then []
    else
      var rest := Calls(patches[1..], codeOffset);
      if patches[0].kind == PatchCallRelative then
        [Pending(MethodRef(patches[0].dexFile, patches[0].cmp1), codeOffset + patches[0].literalOffset)] + rest
      else rest
  }

  function CodeAt(cfg: Config, offset: nat): nat
  {
    cfg.AlignCode(offset) + HEADER_SIZE
  }

  /** The aligned offset behind a method placed at `offset`. */
  function NextAt(cfg: Config, offset: nat, m: CompiledMethod): nat
  {
    cfg.AlignCode(CodeAt(cfg, offset) + cfg.Size(m))
  }

  /** The oldest unprocessed call could not reach a thunk behind this method. */
  predicate Crowded(cfg: Config, p: Patcher, offset: nat, m: CompiledMethod)
  {
    p.unprocessed != [] && Diff(NextAt(cfg, offset, m), p.unprocessed[0].offset) > cfg.MaxPositive()
  }

  function Processed(cfg: Config, p: Patcher, methods: map<MethodRef, nat>, offset: nat, v: Visited): (bool,
      seq<Pending>)
  {
    ProcessPatches(cfg, p.thunks, p.unprocessed, methods, CodeAt(cfg, offset), v.ref, NextAt(cfg, offset, v.m))
  }

  /** Reserves space for a thunk before a method if one is needed; also the adjusted offset. The calls of
      the method are queued at the offsets they have without the thunk. */
  function ReserveSpace(cfg: Config, p: Patcher, methods: map<MethodRef, nat>, offset: nat, v: Visited): (Patcher, nat)
  {
    if !cfg.HasThunks() then (p, offset)
    else
      var calls := Calls(v.m.patches, CodeAt(cfg, offset));
      if Crowded(cfg, p, offset, v.m) then
        var processed := Processed(cfg, p, methods, offset, v);
        if processed.0 then (Patcher(p.thunks + [cfg.AlignCode(offset)], calls),
                             cfg.AlignCode(cfg.AlignCode(offset) + |cfg.thunk|))
        else (Patcher(p.thunks, processed.1 + calls), offset)
      else (Patcher(p.thunks, p.unprocessed + calls), offset)
  }

  const NO_METHOD := MethodRef(0, 0)

  /** Reserves space for a last thunk after all methods. */
  function ReserveSpaceEnd(cfg: Config, p: Patcher, methods: map<MethodRef, nat>, offset: nat): (Patcher, nat)
  {
    if !cfg.HasThunks() then (p, offset)
    else
      var aligned := cfg.AlignCode(offset);
      var processed := ProcessPatches(cfg, p.thunks, p.unprocessed, methods, aligned, NO_METHOD, aligned);
      if processed.0 then (Patcher(p.thunks + [aligned], processed.1), cfg.AlignCode(aligned + |cfg.thunk|))
      else (Patcher(p.thunks, processed.1), offset)
  }

  // ----- The Init pass -----

  /** What the Init pass leaves in a method's slots: `before` is the file offset it started from. */
  datatype Placed = Placed(ref: MethodRef, m: CompiledMethod, header: Header, codeOffset: nat, first: bool, before: nat)

  datatype InitState = InitState(
    offset: nat, patcher: Patcher, codeMap: map<Key, nat>, methods: map<MethodRef, nat>, placed: seq<Placed>)

  function InitStart(offset: nat): InitState
  {
    InitState(offset, Patcher([], []), map[], map[], [])
  }

  /** The table was placed while the code offset was still 0. */
  function Adjust(field: nat, codeStart: nat): nat
  {
    if field == 0 then 0 else (field + codeStart) % WORD
  }

  function MakeHeader(cfg: Config, v: Visited, codeStart: nat): Header
  {
    Header(Tables(Adjust(v.tables.mapping, codeStart), Adjust(v.tables.vmap, codeStart),
                  Adjust(v.tables.gcMap, codeStart)),
           v.m.frameSize, v.m.coreSpillMask, v.m.fpSpillMask, cfg.Size(v.m))
  }

  function Remember(methods: map<MethodRef, nat>, ref: MethodRef, codeOffset: nat): map<MethodRef, nat>
  {
    if ref in methods then methods else methods[ref := codeOffset]
  }

  predicate Shares(cfg: Config, st: InitState, v: Visited)
  {
    !cfg.debuggable && KeyOf(v.m) in st.codeMap
  }

  /** A repeated method takes over the offset of its first occurrence. */
  function Share(cfg: Config, st: InitState, v: Visited): InitState
    requires KeyOf(v.m) in st.codeMap
  {
    var codeOffset := st.codeMap[KeyOf(v.m)];
    var header := MakeHeader(cfg, v, Diff(codeOffset, cfg.Delta()));
    st.(methods := Remember(st.methods, v.ref, codeOffset),
    placed := st.placed + [Placed(v.ref, v.m, header, codeOffset, false, st.offset)])
  }

  /** New code goes to the next aligned offset, behind its header. */
  function Place(cfg: Config, st: InitState, v: Visited, patcher: Patcher, offset: nat): InitState
  {
    var start := cfg.AlignCode(offset);
    var codeOffset := start + HEADER_SIZE + cfg.Delta();
    var header := MakeHeader(cfg, v, Diff(codeOffset, cfg.Delta()));
    InitState(start + HEADER_SIZE + cfg.Size(v.m), patcher,
              if cfg.debuggable then st.codeMap else st.codeMap[KeyOf(v.m) := codeOffset],
              Remember(st.methods, v.ref, codeOffset),
              st.placed + [Placed(v.ref, v.m, header, codeOffset, true, st.offset)])
  }

  function InitVisit(cfg: Config, st: InitState, v: Visited): InitState
  {
    if Shares(cfg, st, v) then Share(cfg, st, v)
    else
      var reserved := ReserveSpace(cfg, st.patcher, st.methods, st.offset, v);
      Place(cfg, st, v, reserved.0, reserved.1)
  }

  function InitRun(cfg: Config, st: InitState, vs: seq<Visited>): InitState
    decreases |vs|
  {
    if vs == [] then st else InitRun(cfg, InitVisit(cfg, st, vs[0]), vs[1..])
  }

  function InitEnd(cfg: Config, st: InitState): InitState
  {
    var reserved := ReserveSpaceEnd(cfg, st.patcher, st.methods, st.offset);
    st.(patcher := reserved.0, offset := reserved.1)
  }

  /** The whole Init pass from the first code offset. */
  function InitPass(cfg: Config, base: nat, vs: seq<Visited>): InitState
  {
    InitEnd(cfg, InitRun(cfg, InitStart(base), vs))
  }

  // ----- The Write pass -----

  /** `fired` records, method by method, whether the Write pass took it for a first occurrence. */
  datatype WriteState = WriteState(offset: nat, thunksWritten: nat, out: seq<byte>, fired: seq<bool>)

  function WriteStart(offset: nat): WriteState
  {
    WriteState(offset, 0, [], [])
  }

  function Words(ws: seq<nat>): (b: seq<byte>)
    ensures |b| == 4 * |ws|
  {
    if ws == [] then [] else Words(ws[..|ws| - 1]) + Le32(ws[|ws| - 1] % WORD)
  }

  function HeaderFields(h: Header): (ws: seq<nat>)
    ensures |ws| == 7
  {
    [h.tables.mapping, h.tables.vmap, h.tables.gcMap, h.frameSize, h.coreSpillMask, h.fpSpillMask, h.codeSize]
  }

  function HeaderBytes(h: Header): (b: seq<byte>)
    ensures |b| == HEADER_SIZE
  {
    Words(HeaderFields(h))
  }

  /** Code with each patched word rewritten; a patch that does not fit its code is not applied. */
  function PatchedCode(cfg: Config, code: seq<byte>, patches: seq<LinkerPatch>, codeStart: nat): (r: seq<byte>)
    ensures |r| == |code|
    decreases |patches|
  {
    if patches == [] then code
    else
      var at := patches[0].literalOffset;
      var code' := if at + 4 <= |code| then
                     var word := cfg.resolve(patches[0], codeStart + at, Read32(code, at)) % WORD;
                     code[..at] + Le32(word) + code[at + 4..]
                   else code;
      PatchedCode(cfg, code', patches[1..], codeStart)
  }

  function Blob(cfg: Config, p: Placed, codeStart: nat): (b: seq<byte>)
    ensures |b| == HEADER_SIZE + cfg.Size(p.m)
  {
    HeaderBytes(p.header) + PatchedCode(cfg, cfg.mem(p.m.code), p.m.patches, codeStart)
  }

  function Emit(w: WriteState, bytes: seq<byte>): (w': WriteState)
    ensures w'.offset == w.offset + |bytes| && w'.out == w.out + bytes
  {
    w.(offset := w.offset + |bytes|, out := w.out + bytes)
  }

  /** Zero padding up to an aligned offset. */
  function Pad(cfg: Config, w: WriteState): (w': WriteState)
    ensures w'.offset == cfg.AlignCode(w.offset)
  {
    Emit(w, Zeros(cfg.AlignCode(w.offset) - w.offset))
  }

  function WriteThunks(cfg: Config, thunks: seq<nat>, w: WriteState): WriteState
  {
    if !cfg.HasThunks() || w.thunksWritten >= |thunks| then w
    else if cfg.AlignCode(w.offset) == thunks[w.thunksWritten] then
      Pad(cfg, Emit(Pad(cfg, w.(thunksWritten := w.thunksWritten + 1)), cfg.thunk))
    else w
  }

  /** The test that stands in for a deduplication map in the Write pass. */
  predicate Fires(w: WriteState, p: Placed)
  {
    p.codeOffset >= w.offset
  }

  /** Padding, method header and code. */
  function WriteBlob(cfg: Config, w: WriteState, p: Placed): WriteState
  {
    var w1 := Pad(cfg, w);
    Emit(w1, Blob(cfg, p, w1.offset + HEADER_SIZE)).(fired := w.fired + [true])
  }

  function WriteVisit(cfg: Config, thunks: seq<nat>, w: WriteState, p: Placed): WriteState
  {
    if Fires(w, p) then WriteBlob(cfg, WriteThunks(cfg, thunks, w), p)
    else w.(fired := w.fired + [false])
  }

  function WriteRun(cfg: Config, thunks: seq<nat>, w: WriteState, ps: seq<Placed>): WriteState
    decreases |ps|
  {
    if ps == [] then w else WriteRun(cfg, thunks, WriteVisit(cfg, thunks, w, ps[0]), ps[1..])
  }

  /** The whole Write pass over the slots and the thunk locations that the Init pass left. */
  function WritePass(cfg: Config, base: nat, final: InitState): WriteState
  {
    WriteThunks(cfg, final.patcher.thunks, WriteRun(cfg, final.patcher.thunks, WriteStart(base), final.placed))
  }
}

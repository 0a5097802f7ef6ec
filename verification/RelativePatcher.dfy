/** The loops of the ARM relative patcher. */
module RelativePatcher {
  import opened Bytes
  import opened CodePatching
  import opened CompiledMethods
  import opened OatCode

  /** Pops unprocessed calls until one needs a thunk or has to wait. */
  method ReserveSpaceProcessPatches(cfg: Config, thunks: seq<nat>, queue: seq<Pending>, methods: map<MethodRef, nat>,
                                    codeOffset: nat, ref: MethodRef, next: nat)
    returns (needed: bool, left: seq<Pending>)
    ensures (needed, left) == ProcessPatches(cfg, thunks, queue, methods, codeOffset, ref, next)
  {
    left := queue;
    while left != []
      invariant ProcessPatches(cfg, thunks, left, methods, codeOffset, ref, next) ==
                ProcessPatches(cfg, thunks, queue, methods, codeOffset, ref, next)
      decreases |left|
    {
      var c := left[0];
      if c.ref == ref {
        if Diff(codeOffset, c.offset) > cfg.MaxPositive() { return true, left; }
      } else if c.ref !in methods {
        if thunks == [] || Diff(c.offset, thunks[|thunks| - 1]) > cfg.MaxNegative() {
          return Diff(next, c.offset) > cfg.MaxPositive(), left;
        }
      } else {
        var target := Diff(methods[c.ref], cfg.Delta());
        if target < c.offset {
          if thunks != [] && thunks[|thunks| - 1] > target { target := thunks[|thunks| - 1]; }
          if Diff(c.offset, target) > cfg.MaxNegative() { return true, left; }
        }
      }
      left := left[1..];
    }
    needed := false;
  }

  method CollectCalls(patches: seq<LinkerPatch>, codeOffset: nat) returns (calls: seq<Pending>)
    ensures calls == Calls(patches, codeOffset)
  {
    calls := [];
    for i := 0 to |patches|
      invariant calls + Calls(patches[i..], codeOffset) == Calls(patches, codeOffset)
    {
      assert patches[i..][1..] == patches[i + 1..];
      if patches[i].kind == PatchCallRelative {
        calls := calls + [Pending(MethodRef(patches[i].dexFile, patches[i].cmp1),
                                  codeOffset + patches[i].literalOffset)];
      }
    }
  }

  method ReserveSpaceBefore(cfg: Config, p: Patcher, methods: map<MethodRef, nat>, at: nat, v: Visited)
    returns (patcher: Patcher, offset: nat)
    ensures (patcher, offset) == ReserveSpace(cfg, p, methods, at, v)
  {
    patcher, offset := p, at;
    if cfg.HasThunks() {
      var codeOffset := cfg.AlignCode(offset) + HEADER_SIZE;
      var next := cfg.AlignCode(codeOffset + cfg.Size(v.m));
      var queue := p.unprocessed;
      var thunks := p.thunks;
      if queue != [] && Diff(next, queue[0].offset) > cfg.MaxPositive() {
        var needed, left := ReserveSpaceProcessPatches(cfg, thunks, queue, methods, codeOffset, v.ref, next);
        queue := left;
        if needed {
          queue := [];
          var thunk := cfg.AlignCode(offset);
          thunks := thunks + [thunk];
          offset := cfg.AlignCode(thunk + |cfg.thunk|);
        }
      }
      var calls := CollectCalls(v.m.patches, codeOffset);
      assert [] + calls == calls;
      patcher := Patcher(thunks, queue + calls);
    }
  }

  method ReserveSpaceAfter(cfg: Config, p: Patcher, methods: map<MethodRef, nat>, at: nat)
    returns (patcher: Patcher, offset: nat)
    ensures (patcher, offset) == ReserveSpaceEnd(cfg, p, methods, at)
  {
    patcher, offset := p, at;
    if cfg.HasThunks() {
      var aligned := cfg.AlignCode(offset);
      var needed, left := ReserveSpaceProcessPatches(cfg, p.thunks, p.unprocessed, methods, aligned, NO_METHOD,
                                                     aligned);
      var thunks := p.thunks;
      if needed {
        thunks := thunks + [aligned];
        offset := cfg.AlignCode(aligned + |cfg.thunk|);
      }
      patcher := Patcher(thunks, left);
    }
  }

  /** Code bytes with every patched word rewritten. */
  method PatchCode(cfg: Config, m: CompiledMethod, codeStart: nat) returns (code: seq<byte>)
    ensures code == PatchedCode(cfg, cfg.mem(m.code), m.patches, codeStart)
    ensures IsPatched(cfg, cfg.mem(m.code), m.patches, codeStart, code)
  {
    TheoremPatchedCode(cfg, cfg.mem(m.code), m.patches, codeStart);
    code := cfg.mem(m.code);
    for i := 0 to |m.patches|
      invariant PatchedCode(cfg, code, m.patches[i..], codeStart) ==
                PatchedCode(cfg, cfg.mem(m.code), m.patches, codeStart)
    {
      assert m.patches[i..][1..] == m.patches[i + 1..];
      var at := m.patches[i].literalOffset;
      if at + 4 <= |code| {
        var word := cfg.resolve(m.patches[i], codeStart + at, Read32(code, at)) % WORD;
        code := code[..at] + Le32(word) + code[at + 4..];
      }
    }
  }
}

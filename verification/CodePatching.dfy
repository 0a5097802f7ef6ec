/** What patching does to the code of a method, said word by word and byte by byte. */
module CodePatching {
  import opened Bytes
  import opened CompiledMethods
  import opened OatCode

  /** The word of a patch lies inside `n` bytes of code. */
  predicate Fits(p: LinkerPatch, n: nat)
  {
    p.literalOffset + 4 <= n
  }

  predicate Apart(p: LinkerPatch, q: LinkerPatch)
  {
    p.literalOffset + 4 <= q.literalOffset || q.literalOffset + 4 <= p.literalOffset
  }

  /** Byte `i` belongs to no patched word. */
  predicate Outside(patches: seq<LinkerPatch>, n: nat, i: nat)
  {
    forall j :: 0 <= j < |patches| && Fits(patches[j], n) ==>
      i < patches[j].literalOffset || patches[j].literalOffset + 4 <= i
  }

  /** Patch `k` fits and overlaps no other that fits. */
  predicate Alone(patches: seq<LinkerPatch>, n: nat, k: nat)
    requires k < |patches|
  {
    Fits(patches[k], n) && forall j :: 0 <= j < |patches| && j != k && Fits(patches[j], n) ==>
        Apart(patches[j], patches[k])
  }

  /** Every patched word is what the patch makes of the word before, and every other byte is as before. */
  predicate IsPatched(cfg: Config, code: seq<byte>, patches: seq<LinkerPatch>, codeStart: nat, r: seq<byte>)
  {
    && |r| == |code|
    && (forall k {:trigger patches[k]} :: 0 <= k < |patches| && Alone(patches, |code|, k) ==>
          var at := patches[k].literalOffset;
          Read32(r, at) == cfg.resolve(patches[k], codeStart + at, Read32(code, at)) % WORD)
    && (forall i {:trigger r[i]} :: 0 <= i < |code| && Outside(patches, |code|, i) ==> r[i] == code[i])
  }

  /** The code after its first patch. */
  function Once(cfg: Config, code: seq<byte>, p: LinkerPatch, codeStart: nat): (r: seq<byte>)
    requires Fits(p, |code|)
    ensures |r| == |code|
    ensures forall i :: 0 <= i < |code| && (i < p.literalOffset || p.literalOffset + 4 <= i) ==> r[i] == code[i]
  {
    var at := p.literalOffset;
    code[..at] + Le32(cfg.resolve(p, codeStart + at, Read32(code, at)) % WORD) + code[at + 4..]
  }

  lemma {:induction false} OnceWord(cfg: Config, code: seq<byte>, p: LinkerPatch, codeStart: nat)
    requires Fits(p, |code|)
    ensures var at := p.literalOffset;
            Read32(Once(cfg, code, p, codeStart), at) == cfg.resolve(p, codeStart + at, Read32(code, at)) % WORD
  {
    var at, r := p.literalOffset, Once(cfg, code, p, codeStart);
    var word := Le32(cfg.resolve(p, codeStart + at, Read32(code, at)) % WORD);
    assert r[at..at + 4] == word[0..4];
    Read32Local(r, at, word, 0);
  }

  lemma {:induction false} OnceElsewhere(cfg: Config, code: seq<byte>, p: LinkerPatch, codeStart: nat, q: LinkerPatch)
    requires Fits(p, |code|) && Fits(q, |code|) && Apart(p, q)
    ensures Read32(Once(cfg, code, p, codeStart), q.literalOffset) == Read32(code, q.literalOffset)
  {
  }

  lemma {:induction false} FirstPatch(cfg: Config, code: seq<byte>, patches: seq<LinkerPatch>, codeStart: nat)
    requires patches != []
    ensures PatchedCode(cfg, code, patches, codeStart) ==
            PatchedCode(cfg, if Fits(patches[0], |code|) then Once(cfg, code, patches[0], codeStart) else code,
                        patches[1..], codeStart)
  {
  }

  /** Bytes outside the patched words stay. */
  lemma {:induction false} OtherByte(cfg: Config, code: seq<byte>, patches: seq<LinkerPatch>, codeStart: nat, i: nat)
    requires i < |code| && Outside(patches, |code|, i)
    ensures PatchedCode(cfg, code, patches, codeStart)[i] == code[i]
    decreases |patches|
  {
    if patches != [] {
      FirstPatch(cfg, code, patches, codeStart);
      forall j | 0 <= j < |patches[1..]| ensures patches[1..][j] == patches[j + 1] {}
      var code' := if Fits(patches[0], |code|) then Once(cfg, code, patches[0], codeStart) else code;
      OtherByte(cfg, code', patches[1..], codeStart, i);
    }
  }

  lemma {:induction false} OutsideOfAlone(patches: seq<LinkerPatch>, n: nat, i: nat)
    requires patches != [] && Alone(patches, n, 0) && patches[0].literalOffset <= i < patches[0].literalOffset + 4
    ensures Outside(patches[1..], n, i)
  {
    forall j | 0 <= j < |patches[1..]| && Fits(patches[1..][j], n)
      ensures i < patches[1..][j].literalOffset || patches[1..][j].literalOffset + 4 <= i
    {
      assert patches[1..][j] == patches[j + 1] && Apart(patches[j + 1], patches[0]);
    }
  }

  /** The word of a patch that overlaps no other is patched exactly once. */
  lemma {:induction false} PatchedWord(cfg: Config, code: seq<byte>, patches: seq<LinkerPatch>, codeStart: nat, k: nat)
    requires k < |patches| && Alone(patches, |code|, k)
    ensures var at := patches[k].literalOffset;
            Read32(PatchedCode(cfg, code, patches, codeStart), at) ==
            cfg.resolve(patches[k], codeStart + at, Read32(code, at)) % WORD
    decreases |patches|
  {
    var at, first := patches[k].literalOffset, patches[0];
    var code' := if Fits(first, |code|) then Once(cfg, code, first, codeStart) else code;
    FirstPatch(cfg, code, patches, codeStart);
    if k == 0 {
      forall i | at <= i < at + 4 ensures PatchedCode(cfg, code', patches[1..], codeStart)[i] == code'[i] {
        OutsideOfAlone(patches, |code|, i);
        OtherByte(cfg, code', patches[1..], codeStart, i);
      }
      OnceWord(cfg, code, first, codeStart);
    } else {
      TailAlone(patches, |code|, k);
      PatchedWord(cfg, code', patches[1..], codeStart, k - 1);
      if Fits(first, |code|) {
        assert Apart(first, patches[k]);
        OnceElsewhere(cfg, code, first, codeStart, patches[k]);
      }
    }
  }

  lemma {:induction false} TailAlone(patches: seq<LinkerPatch>, n: nat, k: nat)
    requires 0 < k < |patches| && Alone(patches, n, k)
    ensures patches[1..][k - 1] == patches[k] && Alone(patches[1..], n, k - 1)
  {
    forall j | 0 <= j < |patches[1..]| && j != k - 1 && Fits(patches[1..][j], n)
      ensures Apart(patches[1..][j], patches[1..][k - 1])
    {
      assert patches[1..][j] == patches[j + 1] && Apart(patches[j + 1], patches[k]);
    }
  }

  /** Patching rewrites every patched word from its old value and nothing else. */
  lemma {:induction false} TheoremPatchedCode(cfg: Config, code: seq<byte>, patches: seq<LinkerPatch>, codeStart: nat)
    ensures IsPatched(cfg, code, patches, codeStart, PatchedCode(cfg, code, patches, codeStart))
  {
    var r := PatchedCode(cfg, code, patches, codeStart);
    forall k | 0 <= k < |patches| && Alone(patches, |code|, k)
      ensures var at := patches[k].literalOffset;
              Read32(r, at) == cfg.resolve(patches[k], codeStart + at, Read32(code, at)) % WORD
    {
      PatchedWord(cfg, code, patches, codeStart, k);
    }
    forall i | 0 <= i < |code| && Outside(patches, |code|, i) ensures r[i] == code[i] {
      OtherByte(cfg, code, patches, codeStart, i);
    }
  }
}

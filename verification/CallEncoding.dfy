/** The instruction words that the relative patchers write, and what the processor reads from them. */
module CallEncoding {
  import opened Bytes

  /** A number read as a signed 32-bit one. */
  function Signed(d: nat): int
  {
    if d < 0x8000_0000 then d else d - WORD
  }

  // ----- Thumb2: BL -----

  /** A displacement by its fields: seven copies of the sign, two single bits, ten and eleven bits, and a low bit. */
  predicate ThumbFields(d: nat, sign: nat, top: nat, i1: nat, i2: nat, imm10: nat, imm11: nat, low: nat)
  {
    && sign < 2 && top < 128 && i1 < 2 && i2 < 2 && imm10 < 1024 && imm11 < 2048 && low < 2
    && d == 0x8000_0000 * sign + 0x100_0000 * top + 0x80_0000 * i1 + 0x40_0000 * i2 + 0x1000 * imm10 + 2 * imm11 + low
  }

  function Xor1(a: nat, b: nat): nat
  {
    (a + b) % 2
  }

  /** BL with a displacement from the instruction behind the next. The fields do not overlap. */
  function EncodeBlThumb(d: nat): nat
  {
    var sign, i1, i2 := d / 0x8000_0000 % 2, d / 0x80_0000 % 2, d / 0x40_0000 % 2;
    var imm10, imm11 := d / 0x1000 % 1024, d / 2 % 2048;
    var j1, j2 := Xor1(i1, Xor1(sign, 1)), Xor1(i2, Xor1(sign, 1));
    0xf000_d000 + 0x400_0000 * sign + 0x2000 * j1 + 0x800 * j2 + 0x1_0000 * imm10 + imm11
  }

  predicate IsBlThumb(insn: nat)
  {
    insn / 0x800_0000 == 30 && insn / 0x4000 % 4 == 3 && insn / 0x1000 % 2 == 1
  }

  /** What the processor adds to the address behind the instruction: S, I1, I2, imm10 and imm11 in a row, with
      I1 == NOT(J1 EOR S) and I2 == NOT(J2 EOR S), sign-extended and doubled. */
  function BlThumbOffset(insn: nat): int
  {
    var s, j1, j2 := insn / 0x400_0000 % 2, insn / 0x2000 % 2, insn / 0x800 % 2;
    var i1, i2 := if j1 == s then 1 else 0, if j2 == s then 1 else 0;
    0x80_0000 * i1 + 0x40_0000 * i2 + 0x1000 * (insn / 0x1_0000 % 1024) + 2 * (insn % 2048) - 0x100_0000 * s
  }

  lemma {:induction false} ThumbFieldsOf(d: nat)
    returns (sign: nat, top: nat, i1: nat, i2: nat, imm10: nat, imm11: nat, low: nat)
    requires d < WORD
    ensures ThumbFields(d, sign, top, i1, i2, imm10, imm11, low)
  {
    var a, b, c := d / 2, d / 0x1000, d / 0x40_0000;
    low, imm11, imm10 := d - 2 * a, a - 2048 * b, b - 1024 * c;
    var e, f, g := d / 0x80_0000, d / 0x100_0000, d / 0x8000_0000;
    i2, i1, top, sign := c - 2 * e, e - 2 * f, f - 128 * g, g;
    assert a / 2048 == b && b / 1024 == c && c / 2 == e && e / 2 == f && f / 128 == g;
  }

  lemma {:induction false} ThumbEncoded(d: nat, sign: nat, top: nat, i1: nat, i2: nat, imm10: nat, imm11: nat, low: nat)
    requires ThumbFields(d, sign, top, i1, i2, imm10, imm11, low)
    ensures EncodeBlThumb(d) == 0xf000_d000 + 0x400_0000 * sign + 0x2000 * Xor1(i1, Xor1(sign, 1)) +
                                0x800 * Xor1(i2, Xor1(sign, 1)) + 0x1_0000 * imm10 + imm11
  {
    ThumbHigh(d, sign, top, i1, i2, 0x1000 * imm10 + 2 * imm11 + low);
    ThumbLow(d, 512 * sign + 4 * top + 2 * i1 + i2, imm10, imm11, low);
  }

  lemma {:induction false} ThumbHigh(d: nat, sign: nat, top: nat, i1: nat, i2: nat, rest: nat)
    requires sign < 2 && top < 128 && i1 < 2 && i2 < 2 && rest < 0x40_0000
    requires d == 0x8000_0000 * sign + 0x100_0000 * top + 0x80_0000 * i1 + 0x40_0000 * i2 + rest
    ensures d / 0x8000_0000 % 2 == sign && d / 0x80_0000 % 2 == i1 && d / 0x40_0000 % 2 == i2
  {
    assert d / 0x8000_0000 == sign;
    assert d / 0x80_0000 == 256 * sign + 2 * top + i1;
    assert d / 0x40_0000 == 512 * sign + 4 * top + 2 * i1 + i2;
  }

  lemma {:induction false} ThumbLow(d: nat, high: nat, imm10: nat, imm11: nat, low: nat)
    requires imm10 < 1024 && imm11 < 2048 && low < 2 && d == 0x40_0000 * high + 0x1000 * imm10 + 2 * imm11 + low
    ensures d / 0x1000 % 1024 == imm10 && d / 2 % 2048 == imm11
  {
    assert d / 0x1000 == 1024 * high + imm10;
    assert d / 2 == 2048 * (1024 * high + imm10) + imm11;
  }

  /** An instruction word by its fields. */
  lemma {:induction false} ThumbDecoded(insn: nat, s: nat, imm10: nat, j1: nat, j2: nat, imm11: nat)
    requires s < 2 && imm10 < 1024 && j1 < 2 && j2 < 2 && imm11 < 2048
    requires insn == 0xf000_d000 + 0x400_0000 * s + 0x1_0000 * imm10 + 0x2000 * j1 + 0x800 * j2 + imm11
    ensures insn < WORD && IsBlThumb(insn)
    ensures BlThumbOffset(insn) == (if j1 == s then 0x80_0000 else 0) + (if j2 == s then 0x40_0000 else 0) +
                                   0x1000 * imm10 + 2 * imm11 - 0x100_0000 * s
  {
    var e := 26 + 4 * j1 + j2;
    assert insn / 0x800 == 0x1e_0000 + 0x8000 * s + 32 * imm10 + e && e < 32;
    assert insn / 0x1000 == 0xf_0000 + 0x4000 * s + 16 * imm10 + 13 + 2 * j1;
    assert insn / 0x2000 == 0x7_8000 + 0x2000 * s + 8 * imm10 + 6 + j1;
    assert insn / 0x4000 == 0x3_c000 + 0x1000 * s + 4 * imm10 + 3;
    assert insn / 0x1_0000 == 0xf000 + 1024 * s + imm10;
    assert insn / 0x400_0000 == 60 + s;
  }

  /** The processor finds the displacement exactly if it is even and has 25 bits. */
  lemma {:induction false} TheoremBlThumb(d: nat)
    requires d < WORD
    ensures EncodeBlThumb(d) < WORD && IsBlThumb(EncodeBlThumb(d))
    ensures BlThumbOffset(EncodeBlThumb(d)) == Signed(d) <==>
            d % 2 == 0 && (d < 0x100_0000 || 0xff00_0000 <= d)
  {
    var sign, top, i1, i2, imm10, imm11, low := ThumbFieldsOf(d);
    ThumbEncoded(d, sign, top, i1, i2, imm10, imm11, low);
    XorTwice(i1, sign);
    XorTwice(i2, sign);
    ThumbDecoded(EncodeBlThumb(d), sign, imm10, Xor1(i1, Xor1(sign, 1)), Xor1(i2, Xor1(sign, 1)), imm11);
    ThumbIff(d, sign, top, i1, i2, imm10, imm11, low, BlThumbOffset(EncodeBlThumb(d)));
  }

  lemma {:induction false} XorTwice(i: nat, sign: nat)
    requires i < 2 && sign < 2
    ensures Xor1(i, Xor1(sign, 1)) < 2 && (Xor1(i, Xor1(sign, 1)) == sign <==> i == 1)
  {
  }

  lemma {:induction false} ThumbIff(d: nat, sign: nat, top: nat, i1: nat, i2: nat, imm10: nat, imm11: nat, low: nat,
                                    offset: int)
    requires ThumbFields(d, sign, top, i1, i2, imm10, imm11, low)
    requires offset == 0x80_0000 * i1 + 0x40_0000 * i2 + 0x1000 * imm10 + 2 * imm11 - 0x100_0000 * sign
    ensures offset == Signed(d) <==> d % 2 == 0 && (d < 0x100_0000 || 0xff00_0000 <= d)
  {
    assert d % 2 == low;
  }

  /** Thumb instructions of 32 bits are stored as two halves, the high one first. */
  function ThumbWord(insn: nat): nat
    requires insn < WORD
  {
    insn / 0x1_0000 + 0x1_0000 * (insn % 0x1_0000)
  }

  lemma {:induction false} HalvesSwap(insn: nat)
    requires insn < WORD
    ensures ThumbWord(insn) < WORD && ThumbWord(ThumbWord(insn)) == insn
  {
    var hi, lo := insn / 0x1_0000, insn % 0x1_0000;
    var w := hi + 0x1_0000 * lo;
    assert w / 0x1_0000 == lo && w % 0x1_0000 == hi;
  }

  // ----- Arm64: BL -----

  function EncodeBl64(d: nat): nat
  {
    0x9400_0000 + d % 0x1000_0000 / 4
  }

  predicate IsBl64(insn: nat)
  {
    insn / 0x400_0000 == 37
  }

  /** What the processor adds to the address of the instruction: imm26, sign-extended, times four. */
  function Bl64Offset(insn: nat): int
  {
    var imm := insn % 0x400_0000;
    4 * (if imm < 0x200_0000 then imm else imm - 0x400_0000)
  }

  /** The processor finds the displacement exactly if it is a multiple of four and has 28 bits. */
  lemma {:induction false} TheoremBl64(d: nat)
    requires d < WORD
    ensures EncodeBl64(d) < WORD && IsBl64(EncodeBl64(d))
    ensures Bl64Offset(EncodeBl64(d)) == Signed(d) <==> d % 4 == 0 && (d < 0x800_0000 || 0xf800_0000 <= d)
  {
    var low, high := d % 0x1000_0000, d / 0x1000_0000;
    var imm := low / 4;
    assert d == 0x1000_0000 * high + low && imm < 0x400_0000;
    assert EncodeBl64(d) % 0x400_0000 == imm && EncodeBl64(d) / 0x400_0000 == 37;
    assert d % 4 == low % 4;
  }

  // ----- x86: a displacement from the end of the field -----

  /** The word for a call or a reference at `at`. */
  function EncodeRel32(at: nat, target: nat): nat
  {
    (target - at - 4) % WORD
  }

  lemma {:induction false} TheoremRel32(at: nat, target: nat)
    requires target < WORD
    ensures EncodeRel32(at, target) < WORD && (at + 4 + EncodeRel32(at, target)) % WORD == target
  {
    var x := target - at - 4;
    assert x == WORD * (x / WORD) + x % WORD;
    assert (at + 4 + x % WORD) == target + WORD * (-(x / WORD));
    ModShift(target, -(x / WORD));
  }

  lemma {:induction false} ModShift(r: nat, q: int)
    requires r < WORD
    ensures (r + WORD * q) % WORD == r
  {
  }

  // ----- Thumb2: MOVW and MOVT -----

  /** An unpatched MOVW or MOVT: no immediate bits, and a destination register. */
  predicate IsMov(insn: nat, high: bool, register: nat)
  {
    register < 16 && insn == (if high then 0xf2c0_0000 else 0xf240_0000) + 0x100 * register
  }

  /** Puts sixteen bits into the four immediate fields. */
  function EncodeMov(insn: nat, imm16: nat): nat
  {
    insn + 0x400_0000 * (imm16 / 0x800 % 2) + 0x1_0000 * (imm16 / 0x1000 % 16) +
    0x1000 * (imm16 / 0x100 % 8) + imm16 % 256
  }

  /** The immediate of a MOVW or MOVT: imm4, i, imm3 and imm8 in a row. */
  function MovImmediate(insn: nat): nat
  {
    0x1000 * (insn / 0x1_0000 % 16) + 0x800 * (insn / 0x400_0000 % 2) + 0x100 * (insn / 0x1000 % 8) + insn % 256
  }

  lemma {:induction false} MovFields(imm16: nat) returns (imm4: nat, i: nat, imm3: nat, imm8: nat)
    requires imm16 < 0x1_0000
    ensures imm4 < 16 && i < 2 && imm3 < 8 && imm8 < 256 && imm16 == 0x1000 * imm4 + 0x800 * i + 0x100 * imm3 + imm8
    ensures imm16 / 0x800 % 2 == i && imm16 / 0x1000 % 16 == imm4 && imm16 / 0x100 % 8 == imm3 && imm16 % 256 == imm8
  {
    var a, b, c := imm16 / 0x100, imm16 / 0x800, imm16 / 0x1000;
    imm8, imm3, i, imm4 := imm16 - 0x100 * a, a - 8 * b, b - 2 * c, c;
    assert a / 8 == b && b / 2 == c;
  }

  lemma {:induction false} MovEncoded(insn: nat, high: bool, register: nat, imm4: nat, i: nat, imm3: nat, imm8: nat,
                                      word: nat)
    requires IsMov(insn, high, register) && imm4 < 16 && i < 2 && imm3 < 8 && imm8 < 256
    requires word == insn + 0x400_0000 * i + 0x1_0000 * imm4 + 0x1000 * imm3 + imm8
    ensures word < WORD && MovImmediate(word) == 0x1000 * imm4 + 0x800 * i + 0x100 * imm3 + imm8
    ensures word / 0x80_0000 % 2 == (if high then 1 else 0) && word / 0x100 % 16 == register
  {
    var h := if high then 1 else 0;
    MovLow(word, h, register, imm4, i, imm3, imm8);
    MovMiddle(word, h, register, imm4, i, imm3, imm8);
    MovHigh(word, h, register, imm4, i, imm3, imm8);
  }

  predicate MovWord(word: nat, h: nat, register: nat, imm4: nat, i: nat, imm3: nat, imm8: nat)
  {
    && h < 2 && register < 16 && imm4 < 16 && i < 2 && imm3 < 8 && imm8 < 256
    && word == 0xf240_0000 + 0x80_0000 * h + 0x100 * register + 0x400_0000 * i + 0x1_0000 * imm4 + 0x1000 * imm3 + imm8
  }

  lemma {:induction false} MovLow(word: nat, h: nat, register: nat, imm4: nat, i: nat, imm3: nat, imm8: nat)
    requires MovWord(word, h, register, imm4, i, imm3, imm8)
    ensures word < WORD && word % 256 == imm8 && word / 0x100 % 16 == register
  {
    assert word / 0x100 == 16 * (0xf_2400 + 0x800 * h + 0x4000 * i + 16 * imm4 + imm3) + register;
  }

  lemma {:induction false} MovMiddle(word: nat, h: nat, register: nat, imm4: nat, i: nat, imm3: nat, imm8: nat)
    requires MovWord(word, h, register, imm4, i, imm3, imm8)
    ensures word / 0x1000 % 8 == imm3 && word / 0x1_0000 % 16 == imm4
  {
    assert word / 0x1000 == 8 * (0x1_e480 + 0x100 * h + 0x800 * i + 2 * imm4) + imm3;
    assert word / 0x1_0000 == 16 * (0xf24 + 8 * h + 0x40 * i) + imm4;
  }

  lemma {:induction false} MovHigh(word: nat, h: nat, register: nat, imm4: nat, i: nat, imm3: nat, imm8: nat)
    requires MovWord(word, h, register, imm4, i, imm3, imm8)
    ensures word / 0x80_0000 % 2 == h && word / 0x400_0000 % 2 == i
  {
    assert word / 0x80_0000 == 2 * (0xf2 + 4 * i) + h;
    assert word / 0x400_0000 == 60 + i;
  }

  lemma {:induction false} MovReads(insn: nat, high: bool, register: nat, imm16: nat)
    requires IsMov(insn, high, register) && imm16 < 0x1_0000
    ensures EncodeMov(insn, imm16) < WORD && MovImmediate(EncodeMov(insn, imm16)) == imm16
    ensures EncodeMov(insn, imm16) / 0x80_0000 % 2 == (if high then 1 else 0)
    ensures EncodeMov(insn, imm16) / 0x100 % 16 == register
  {
    var imm4, i, imm3, imm8 := MovFields(imm16);
    MovEncoded(insn, high, register, imm4, i, imm3, imm8, EncodeMov(insn, imm16));
  }

  /** The half of a difference that goes into an instruction: its bit 23 tells MOVT. */
  function MovHalf(insn: nat, diff: nat): nat
  {
    if insn / 0x80_0000 % 2 == 1 then diff / 0x1_0000 else diff % 0x1_0000
  }

  /** What MOVW and MOVT leave in their register, added to the program counter, is the target. */
  lemma {:induction false} TheoremMovPair(movw: nat, movt: nat, register: nat, pcBase: nat, target: nat)
    requires IsMov(movw, false, register) && IsMov(movt, true, register) && target < WORD && pcBase < WORD
    ensures var diff := Sub32(target, pcBase);
            var w, t := EncodeMov(movw, MovHalf(movw, diff)), EncodeMov(movt, MovHalf(movt, diff));
            && w < WORD && t < WORD && w / 0x100 % 16 == t / 0x100 % 16 == register
            && MovImmediate(w) + 0x1_0000 * MovImmediate(t) == diff
            && Add32(pcBase, MovImmediate(w) + 0x1_0000 * MovImmediate(t)) == target
  {
    var diff := Sub32(target, pcBase);
    MovKind(movw, false, register);
    MovKind(movt, true, register);
    MovReads(movw, false, register, diff % 0x1_0000);
    MovReads(movt, true, register, diff / 0x1_0000);
  }

  lemma {:induction false} MovKind(insn: nat, high: bool, register: nat)
    requires IsMov(insn, high, register)
    ensures insn / 0x80_0000 % 2 == if high then 1 else 0
  {
  }

  // ----- Arm64: ADRP and LDR -----

  /** ADRP with no immediate and a destination register. */
  predicate IsAdrp(insn: nat, register: nat)
  {
    register < 32 && insn == 0x9000_0000 + register
  }

  /** The low two bits of the page go to bits 29 and 30, the other eighteen to bits 5 to 22, the sign to bit 23. */
  function EncodeAdrp(insn: nat, disp: nat): nat
  {
    insn + 0x2000_0000 * (disp / 0x1000 % 4) + 32 * (disp / 0x4000) + 0x80_0000 * (disp / 0x8000_0000)
  }

  /** The page distance of an ADRP: immhi and immlo in a row, sign-extended. */
  function AdrpPages(insn: nat): int
  {
    var immhi, immlo := insn / 32 % 0x8_0000, insn / 0x2000_0000 % 4;
    var imm := 4 * immhi + immlo;
    if imm < 0x10_0000 then imm else imm - 0x20_0000
  }

  /** LDR of 4 or 8 bytes with no immediate; `registers` are its two registers. */
  predicate IsLdr(insn: nat, wide: bool, registers: nat)
  {
    registers < 1024 && insn == (if wide then 0xf940_0000 else 0xb940_0000) + registers
  }

  function Scale(wide: bool): nat
  {
    if wide then 8 else 4
  }

  function EncodeLdr(insn: nat, wide: bool, disp: nat): nat
  {
    insn + 0x400 * (disp % 0x1000 / Scale(wide))
  }

  /** The byte offset of an LDR: imm12, scaled by the size that bit 30 gives. */
  function LdrOffset(insn: nat): nat
  {
    insn / 0x400 % 0x1000 * Scale(insn / 0x4000_0000 % 2 == 1)
  }

  lemma {:induction false} AdrpReads(insn: nat, register: nat, disp: nat)
    requires IsAdrp(insn, register) && disp < WORD
    ensures var w := EncodeAdrp(insn, disp);
            w < WORD && w % 32 == register && 0x1000 * AdrpPages(w) == Signed(disp) - disp % 0x1000
  {
    var page, low := disp / 0x1000, disp % 0x1000;
    var hi, lo, sign := page / 4, page % 4, page / 0x8_0000;
    assert disp / 0x4000 == hi && disp / 0x8000_0000 == sign && disp == 0x1000 * page + low;
    var w := EncodeAdrp(insn, disp);
    AdrpFields(w, register, lo, hi, sign);
  }

  lemma {:induction false} AdrpFields(w: nat, register: nat, lo: nat, hi: nat, sign: nat)
    requires register < 32 && lo < 4 && hi < 0x4_0000 && sign < 2
    requires w == 0x9000_0000 + register + 0x2000_0000 * lo + 32 * hi + 0x80_0000 * sign
    ensures w < WORD && w % 32 == register && w / 32 % 0x8_0000 == hi + 0x4_0000 * sign && w / 0x2000_0000 % 4 == lo
  {
    assert w / 32 == 0x480_0000 + 0x100_0000 * lo + hi + 0x4_0000 * sign;
    assert w / 0x2000_0000 == 4 + lo;
  }

  lemma {:induction false} LdrReads(insn: nat, wide: bool, registers: nat, disp: nat)
    requires IsLdr(insn, wide, registers) && disp < WORD
    ensures var w := EncodeLdr(insn, wide, disp);
            w < WORD && w % 1024 == registers && LdrOffset(w) == disp % 0x1000 / Scale(wide) * Scale(wide)
  {
    var imm := disp % 0x1000 / Scale(wide);
    var w := EncodeLdr(insn, wide, disp);
    assert imm < 0x400;
    assert w / 0x400 == (if wide then 0x3e_5000 else 0x2e_5000) + imm;
    assert w / 0x4000_0000 == if wide then 3 else 2;
  }

  function PageOf(address: nat): nat
  {
    address - address % 0x1000
  }

  /** ADRP at `pc` and LDR together read the target exactly if the target is aligned to the size read. */
  lemma {:induction false} TheoremAdrpPair(adrp: nat, register: nat, ldr: nat, wide: bool, registers: nat, pc: nat,
                                           target: nat)
    requires IsAdrp(adrp, register) && IsLdr(ldr, wide, registers) && pc < WORD && target < WORD
    ensures var disp := Sub32(target, PageOf(pc));
            var a, l := EncodeAdrp(adrp, disp), EncodeLdr(ldr, wide, disp);
            && a < WORD && l < WORD && a % 32 == register && l % 1024 == registers
            && ((PageOf(pc) + 0x1000 * AdrpPages(a) + LdrOffset(l)) % WORD == target <==> target % Scale(wide) == 0)
  {
    var disp := Sub32(target, PageOf(pc));
    AdrpReads(adrp, register, disp);
    LdrReads(ldr, wide, registers, disp);
    PairReads(pc, target, disp, Scale(wide), LdrOffset(EncodeLdr(ldr, wide, disp)));
  }

  lemma {:induction false} PairReads(pc: nat, target: nat, disp: nat, scale: nat, offset: nat)
    requires pc < WORD && target < WORD && disp == Sub32(target, PageOf(pc)) && (scale == 4 || scale == 8)
    requires offset == disp % 0x1000 / scale * scale
    ensures (PageOf(pc) + (Signed(disp) - disp % 0x1000) + offset) % WORD == target <==> target % scale == 0
  {
    var page := PageOf(pc);
    var sum := page + Signed(disp);
    var rest := disp % 0x1000 % scale;
    assert offset == disp % 0x1000 - rest;
    SumIs(page, target, disp);
    AlignedSame(page, target, disp, scale);
  }

  lemma {:induction false} SumIs(page: nat, target: nat, disp: nat)
    requires page < WORD && target < WORD && disp == Sub32(target, page)
    ensures page + Signed(disp) == target || page + Signed(disp) == target + WORD ||
            page + Signed(disp) == target - WORD
  {
  }

  lemma {:induction false} AlignedSame(page: nat, target: nat, disp: nat, scale: nat)
    requires page % 0x1000 == 0 && page < WORD && target < WORD && disp == Sub32(target, page)
    requires scale == 4 || scale == 8
    ensures disp % 0x1000 % scale == 0 <==> target % scale == 0
  {
    var k := page / 0x1000;
    PageOffset(disp, target, if page <= target then -k else 0x10_0000 - k);
    LowDigits(target, scale);
  }

  lemma {:induction false} PageOffset(disp: nat, target: nat, k: int)
    requires disp == target + 0x1000 * k
    ensures disp % 0x1000 == target % 0x1000
  {
  }

  lemma {:induction false} LowDigits(x: nat, scale: nat)
    requires scale == 4 || scale == 8
    ensures x % 0x1000 % scale == x % scale
  {
    var q, r := x / 0x1000, x % 0x1000;
    if scale == 4 { AddFours(r, 0x400 * q); } else { AddEights(r, 0x200 * q); }
  }

  lemma {:induction false} AddFours(r: nat, k: nat)
    ensures (r + 4 * k) % 4 == r % 4
  {
  }

  lemma {:induction false} AddEights(r: nat, k: nat)
    ensures (r + 8 * k) % 8 == r % 8
  {
  }
}

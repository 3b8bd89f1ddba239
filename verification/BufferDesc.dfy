/** Buffer descriptors: the four words f_set_buffer_desc builds, and how the hardware reads them back. */
module BufferDesc {
  import opened Words
  import opened Isa

  datatype DescArgs = DescArgs(stride: Word, recordNum: Word, addTid: bool, numFmt: Word, datFmt: Word,
                               swizzle: bool, idxStride: Word, cacheSwizzle: bool)

  /** The enumerations hold 8, 16 and 4 values. */
  ghost predicate Enums(a: DescArgs) {
    a.numFmt < 8 && a.datFmt < 16 && a.idxStride < 4
  }

  function Word1(a: DescArgs): Word {
    var t := Shl(And(a.stride, 0x3FFF), 16);
    var u := if a.cacheSwizzle then Or(t, Shl(1, 30)) else t;
    if a.swizzle then Or(u, Shl(1, 31)) else u
  }

  function Word3(a: DescArgs): Word {
    var v := if a.swizzle then Or(Formats(a), Shl(a.idxStride, 21)) else Formats(a);
    if a.addTid then Or(v, Shl(1, 23)) else v
  }

  function Formats(a: DescArgs): Word {
    Or(Shl(And(a.numFmt, 7), 12), Data(a))
  }

  function Data(a: DescArgs): Word {
    if a.addTid then Shl(Shr(And(a.stride, 0x3_C000), 14), 15) else Shl(And(a.datFmt, 0xF), 15)
  }

  function DescCode(desc: nat, base: nat, a: DescArgs): seq<Instr> {
    [SMov64(desc, base),
     SAlu(SOr, desc + 1, S(desc + 1), Imm(Word1(a))),
     SMov(S(desc + 2), Imm(a.recordNum)),
     SMov(S(desc + 3), Imm(Word3(a)))]
  }

  // ---------------------------------------------------------------------------------------------
  // Bit by bit
  // ---------------------------------------------------------------------------------------------

  lemma MaskBits(x: Word, n: nat, k: nat)
    requires n <= 14 && k < 32
    ensures 0 <= Pow2(n) - 1 < TWO32
    ensures Bit(And(x, Pow2(n) - 1), k) == (k < n && Bit(x, k))
  {
    Pow2Mono(n, 31);
    Pow2Of32();
    OnesBit(n, k);
    AndBit(x, Pow2(n) - 1, k);
  }

  lemma OneAt(n: Word, k: nat)
    requires n < 32 && k < 32
    ensures Bit(Shl(1, n), k) == (k == n)
  {
    OneShlBit(n, k);
  }

  predicate Word1Bit(a: DescArgs, k: nat) {
    || (16 <= k < 30 && Bit(a.stride, k - 16))
    || (k == 30 && a.cacheSwizzle)
    || (k == 31 && a.swizzle)
  }

  lemma {:induction false} Word1Bits(a: DescArgs, k: nat)
    requires k < 32
    ensures Bit(Word1(a), k) == Word1Bit(a, k)
  {
    assert Pow2(14) - 1 == 0x3FFF;
    hide And, Or, Shl, Bit, Pow2;
    var s := And(a.stride, 0x3FFF);
    var t := Shl(s, 16);
    ShlBit(s, 16, k);
    if k >= 16 { MaskBits(a.stride, 14, k - 16); }
    OneAt(30, k);
    OneAt(31, k);
    var u := if a.cacheSwizzle then Or(t, Shl(1, 30)) else t;
    OrBit(t, Shl(1, 30), k);
    OrBit(u, Shl(1, 31), k);
  }

  predicate Word3Bit(a: DescArgs, k: nat) {
    || (12 <= k < 15 && Bit(a.numFmt, k - 12))
    || (15 <= k < 19 && if a.addTid then Bit(a.stride, k - 1) else Bit(a.datFmt, k - 15))
    || (21 <= k < 23 && a.swizzle && Bit(a.idxStride, k - 21))
    || (k == 23 && a.addTid)
  }

  /** The four bits above 2^14: 0x3C000 is 15 shifted. */
  lemma MiddleMask(x: Word, k: nat)
    requires k < 32
    ensures Bit(And(x, 0x3_C000), k) == (14 <= k < 18 && Bit(x, k))
  {
    assert Pow2(4) - 1 == 15 && Pow2(14) == 0x4000;
    ShlIs(15, 14);
    assert Shl(15, 14) == 0x3_C000;
    hide And, Shl, Bit, Pow2;
    ShlBit(15, 14, k);
    if k >= 14 { OnesBit(4, k - 14); }
    AndBit(x, 0x3_C000, k);
  }

  lemma {:induction false} DataBits(a: DescArgs, k: nat)
    requires k < 32
    ensures Bit(Data(a), k) == (15 <= k < 19 && if a.addTid then Bit(a.stride, k - 1) else Bit(a.datFmt, k - 15))
  {
    assert Pow2(4) - 1 == 0xF;
    hide And, Shl, Shr, Bit, Pow2;
    if a.addTid {
      var s := And(a.stride, 0x3_C000);
      ShlBit(Shr(s, 14), 15, k);
      if k >= 15 {
        ShrBit(s, 14, k - 15);
        MiddleMask(a.stride, k - 1);
      }
    } else {
      ShlBit(And(a.datFmt, 0xF), 15, k);
      if k >= 15 { MaskBits(a.datFmt, 4, k - 15); }
    }
  }

  lemma {:induction false} FormatBits(a: DescArgs, k: nat)
    requires k < 32
    ensures Bit(Formats(a), k) == ((12 <= k < 15 && Bit(a.numFmt, k - 12)) || Bit(Data(a), k))
  {
    assert Pow2(3) - 1 == 7;
    hide And, Or, Shl, Bit, Pow2, Data;
    var n := And(a.numFmt, 7);
    ShlBit(n, 12, k);
    if k >= 12 { MaskBits(a.numFmt, 3, k - 12); }
    OrBit(Shl(n, 12), Data(a), k);
  }

  lemma IndexBits(x: Word, k: nat)
    requires x < 4 && k < 32
    ensures Bit(Shl(x, 21), k) == (21 <= k < 23 && Bit(x, k - 21))
  {
    hide Shl, Bit, Pow2;
    ShlBit(x, 21, k);
    if k >= 23 { TwoBits(x, k - 21); }
  }

  lemma TwoBits(x: nat, k: nat)
    requires x < 4 && k >= 2
    ensures !Bit(x, k)
  {
    assert Bit(x, k) == Bit(x / 2 / 2, k - 2);
    ZeroBit(k - 2);
  }

  lemma {:induction false} Word3Bits(a: DescArgs, k: nat)
    requires k < 32 && Enums(a)
    ensures Bit(Word3(a), k) == Word3Bit(a, k)
  {
    hide Or, Shl, Bit, Pow2, Data, Formats;
    DataBits(a, k);
    FormatBits(a, k);
    IndexBits(a.idxStride, k);
    OrBit(Formats(a), Shl(a.idxStride, 21), k);
    var v := if a.swizzle then Or(Formats(a), Shl(a.idxStride, 21)) else Formats(a);
    OneAt(23, k);
    OrBit(v, Shl(1, 23), k);
  }

  // ---------------------------------------------------------------------------------------------
  // Reading the words back
  // ---------------------------------------------------------------------------------------------

  predicate BitFrom(x: Word, low: nat, k: nat) {
    Bit(x, low + k)
  }

  /** Two words agree on a field of bits. */
  lemma EqualField(x: Word, xl: nat, y: Word, yl: nat, width: nat)
    requires forall k: nat :: k < width ==> BitFrom(x, xl, k) == BitFrom(y, yl, k)
    ensures BitField(x, xl, width) == BitField(y, yl, width)
  {
    hide Bit, Halve, Pow2;
    FieldBound(x, xl, width);
    FieldBound(y, yl, width);
    forall k: nat | k < width ensures Bit(BitField(x, xl, width), k) == Bit(BitField(y, yl, width), k) {
      assert BitFrom(x, xl, k) == BitFrom(y, yl, k);
      BitFieldBit(x, xl, width, k);
      BitFieldBit(y, yl, width, k);
    }
    SameBits(BitField(x, xl, width), BitField(y, yl, width), width);
  }

  lemma FieldBound(x: Word, low: nat, width: nat)
    ensures BitField(x, low, width) < Pow2(width)
  {
    hide Halve, Pow2;
  }

  ghost predicate Word3Read(a: DescArgs, w: Word) {
    && BitField(w, 12, 3) == a.numFmt
    && (if a.addTid then BitField(w, 15, 4) == BitField(a.stride, 14, 4) else BitField(w, 15, 4) == a.datFmt)
    && (a.swizzle ==> BitField(w, 21, 2) == a.idxStride)
    && Bit(w, 23) == a.addTid
  }

  lemma {:induction false} Word3RoundTrip(a: DescArgs)
    requires Enums(a)
    ensures Word3Read(a, Word3(a))
  {
    hide Bit, Word3, BitField, Pow2;
    forall k: nat | k < 32 ensures Bit(Word3(a), k) == Word3Bit(a, k) { Word3Bits(a, k); }
    SmallField(a.numFmt, 3);
    SmallField(a.datFmt, 4);
    SmallField(a.idxStride, 2);
    EqualField(Word3(a), 12, a.numFmt, 0, 3);
    if a.addTid { EqualField(Word3(a), 15, a.stride, 14, 4); } else { EqualField(Word3(a), 15, a.datFmt, 0, 4); }
    if a.swizzle { EqualField(Word3(a), 21, a.idxStride, 0, 2); }
  }

  /** A small number is its own low field. */
  lemma SmallField(x: Word, width: nat)
    requires width <= 4
    ensures x < (if width == 2 then 4 else if width == 3 then 8 else if width == 4 then 16 else 0) ==>
      BitField(x, 0, width) == x
  {
  }

  /** Word 1 as the hardware reads it: the upper base bits, the low part of the stride, the two flags. */
  ghost predicate Word1Read(a: DescArgs, w: Word) {
    BitField(w, 16, 14) == BitField(a.stride, 0, 14) && Bit(w, 30) == a.cacheSwizzle && Bit(w, 31) == a.swizzle
  }

  ghost predicate Harmless(a: DescArgs, high: Word) {
    forall k: nat :: 16 <= k < 32 && Bit(high, k) ==> Word1Bit(a, k)
  }

  /** The second word keeps what is in the base register: the stride and the flags come back exactly
      when the base has no bit above 15 that they do not have. */
  lemma {:induction false} Word1RoundTrip(a: DescArgs, high: Word)
    ensures var w := Or(high, Word1(a));
      && BitField(w, 0, 16) == BitField(high, 0, 16)
      && (Word1Read(a, w) <==> Harmless(a, high))
  {
    hide Word1, BitField, Pow2, Or;
    var w := Or(high, Word1(a));
    forall k: nat | k < 32 ensures Bit(w, k) == (Bit(high, k) || Word1Bit(a, k)) {
      OrBit(high, Word1(a), k);
      Word1Bits(a, k);
    }
    EqualField(w, 0, high, 0, 16);
    if Harmless(a, high) {
      EqualField(w, 16, a.stride, 0, 14);
    }
    if Word1Read(a, w) {
      forall k: nat | 16 <= k < 32 && Bit(high, k) ensures Word1Bit(a, k) {
        if k < 30 {
          BitFieldBit(w, 16, 14, k - 16);
          BitFieldBit(a.stride, 0, 14, k - 16);
        }
      }
    }
  }

  /** A 48-bit base address is harmless. */
  lemma PlainBase(a: DescArgs, high: Word)
    requires high < 0x1_0000
    ensures Harmless(a, high)
  {
    assert Pow2(8) == 256;
    Pow2Add(8, 8);
    forall k: nat | 16 <= k < 32 ensures !Bit(high, k) { LowBits(high, 16, k); }
  }

  function StrideOf(w1: Word, w3: Word): nat {
    BitField(w1, 16, 14) + (if Bit(w3, 23) then 0x4000 * BitField(w3, 15, 4) else 0)
  }

  /** The stride comes back: 18 bits of it with add_tid_en, otherwise 14. */
  lemma {:induction false} StrideRoundTrip(a: DescArgs, high: Word)
    requires Enums(a) && Harmless(a, high)
    ensures StrideOf(Or(high, Word1(a)), Word3(a)) == a.stride % (if a.addTid then 0x4_0000 else 0x4000)
  {
    hide Bit, Word1, Word3, BitField, Or;
    Word1RoundTrip(a, high);
    Word3RoundTrip(a);
    StrideParts(a.stride);
  }

  lemma {:induction false} StrideParts(s: Word)
    ensures BitField(s, 0, 14) == s % 0x4000
    ensures BitField(s, 0, 14) + 0x4000 * BitField(s, 14, 4) == s % 0x4_0000
  {
    assert Pow2(4) == 16;
    assert Pow2(14) == 0x4000 by { assert Pow2(7) == 128; Pow2Add(7, 7); }
    hide Pow2;
    HalvePow2(s, 14);
    DivMod(s);
  }

  lemma DivMod(s: nat)
    ensures s % 0x4000 + 0x4000 * (s / 0x4000 % 16) == s % 0x4_0000
  {
    var q, r := s / 0x4000, s % 0x4000;
    DivIs(s, 0x4_0000, q / 16, 0x4000 * (q % 16) + r);
  }

  /** The literal of word 1 fits a signed int, as the number printer needs it to, exactly without
      swizzling. */
  lemma {:induction false} Word1Fits(a: DescArgs)
    ensures Word1(a) < 0x8000_0000 <==> !a.swizzle
  {
    hide Word1;
    Word1Bits(a, 31);
    TopBit(Word1(a));
  }

  /** A literal the number printer gets through a signed int unchanged. */
  predicate Prints(v: Word) {
    v < 0x8000_0000
  }

  /** All three literals do exactly for a descriptor without swizzling and with fewer than 2^31 records. */
  lemma {:induction false} LiteralsFit(a: DescArgs)
    requires Enums(a)
    ensures Prints(Word1(a)) && Prints(a.recordNum) && Prints(Word3(a)) <==> !a.swizzle && a.recordNum < 0x8000_0000
  {
    hide Word1, Word3;
    Word1Fits(a);
    Word3Bits(a, 31);
    TopBit(Word3(a));
  }

  lemma TopBit(w: Word)
    ensures Bit(w, 31) <==> w >= 0x8000_0000
  {
    Pow2Of32();
    assert Pow2(31) == 0x8000_0000 by { assert Pow2(32) == 2 * Pow2(31); }
    HalveBit(w, 31, 0);
    HalvePow2(w, 31);
  }

  function Written(d: nat, v: Word, c: bool, w: Wave): (r: Wave)
    ensures SReg(r.sgpr, d) == v && forall x: nat :: x != d ==> SReg(r.sgpr, x) == SReg(w.sgpr, x)
  {
    w.WithScalar(d, v).(scc := c, pc := w.pc + 1)
  }

  function Copied(d: nat, s: nat, w: Wave): (r: Wave)
    ensures SReg(r.sgpr, d) == SReg(w.sgpr, s) && SReg(r.sgpr, d + 1) == SReg(w.sgpr, s + 1)
  {
    w.(sgpr := w.sgpr[d := SReg(w.sgpr, s)][d + 1 := SReg(w.sgpr, s + 1)], pc := w.pc + 1)
  }

  lemma OrPuts(d: nat, v: Word, w: Wave, m: Mem)
    ensures var r := Or(SReg(w.sgpr, d), v);
      Exec(SAlu(SOr, d, S(d), Imm(v)), w, m).0 == Written(d, r, r != 0, w)
  {
    hide Exec, Or;
    DoOr(d, S(d), Imm(v), w, m);
  }

  lemma MovPuts(d: nat, v: Word, w: Wave, m: Mem)
    ensures Exec(SMov(S(d), Imm(v)), w, m).0 == Written(d, v, w.scc, w)
  {
    hide Exec;
    DoMov(d, Imm(v), w, m);
  }

  lemma MovCopies(d: nat, s: nat, w: Wave, m: Mem)
    ensures Exec(SMov64(d, s), w, m).0 == Copied(d, s, w)
  {
    hide Exec;
    DoMov64(d, s, w, m);
  }

  /** The emitted code leaves these words in the descriptor. */
  lemma {:induction false} DescDoes(desc: nat, base: nat, a: DescArgs, w: Wave, sched: seq<Mem>)
    requires |sched| >= 4
    ensures var w' := Through(DescCode(desc, base, a), w, sched, 4);
      && SReg(w'.sgpr, desc) == SReg(w.sgpr, base) && SReg(w'.sgpr, desc + 1) == Or(SReg(w.sgpr, base + 1), Word1(a))
      && SReg(w'.sgpr, desc + 2) == a.recordNum && SReg(w'.sgpr, desc + 3) == Word3(a)
  {
    hide Through, Exec, Word1, Word3, Or, Written, Copied, SReg;
    var w1 := Copied(desc, base, w);
    MovCopies(desc, base, w, sched[0]);
    var v := Or(SReg(w1.sgpr, desc + 1), Word1(a));
    var w2 := Written(desc + 1, v, v != 0, w1);
    OrPuts(desc + 1, Word1(a), w1, sched[1]);
    var w3 := Written(desc + 2, a.recordNum, w2.scc, w2);
    MovPuts(desc + 2, a.recordNum, w2, sched[2]);
    MovPuts(desc + 3, Word3(a), w3, sched[3]);
    Through4(DescCode(desc, base, a), w, sched);
  }

  // ---------------------------------------------------------------------------------------------
  // The descriptor in numbers
  // ---------------------------------------------------------------------------------------------

  lemma Powers()
    ensures Pow2(0) == 1 && Pow2(1) == 2 && Pow2(2) == 4 && Pow2(3) == 8 && Pow2(4) == 0x10 && Pow2(12) == 0x1000
    ensures Pow2(14) == 0x4000 && Pow2(15) == 0x8000 && Pow2(16) == 0x1_0000 && Pow2(21) == 0x20_0000
    ensures Pow2(23) == 0x80_0000 && Pow2(30) == 0x4000_0000 && Pow2(31) == 0x8000_0000
  {
    assert Pow2(0) == 1 && Pow2(1) == 2 && Pow2(2) == 4 && Pow2(3) == 8 && Pow2(4) == 0x10;
    hide Pow2;
    Pow2Add(4, 4);
    Pow2Add(8, 4);
    Pow2Add(12, 2);
    Pow2Add(12, 3);
    Pow2Add(12, 4);
    Pow2Add(16, 4);
    Pow2Add(20, 1);
    Pow2Add(20, 3);
    Pow2Add(15, 15);
    Pow2Add(15, 16);
  }

  lemma FieldIsPart(w: Word, low: nat, width: nat)
    ensures BitField(w, low, width) == w / Pow2(low) % Pow2(width)
  {
    hide Pow2, Halve;
    HalvePow2(w, low);
  }

  lemma BitIsPart(w: Word, k: nat)
    ensures Bit(w, k) <==> w / Pow2(k) % 2 == 1
  {
    HalveBit(w, k, 0);
    HalvePow2(w, k);
  }

  lemma {:induction false} Word1Holds(a: DescArgs, high: Word)
    requires high < 0x1_0000
    ensures var d := Or(high, Word1(a));
      && d % 0x1_0000 == high && d / 0x1_0000 % 0x4000 == a.stride % 0x4000
      && (d / 0x4000_0000 % 2 == 1 <==> a.cacheSwizzle) && (d / 0x8000_0000 % 2 == 1 <==> a.swizzle)
  {
    hide Word1, Or, Pow2, BitField, Bit, Harmless;
    var d := Or(high, Word1(a));
    PlainBase(a, high);
    Word1RoundTrip(a, high);
    Powers();
    FieldIsPart(d, 0, 16);
    FieldIsPart(high, 0, 16);
    FieldIsPart(d, 16, 14);
    FieldIsPart(a.stride, 0, 14);
    BitIsPart(d, 30);
    BitIsPart(d, 31);
  }

  lemma {:induction false} Word3Holds(a: DescArgs)
    requires Enums(a)
    ensures var d := Word3(a);
      && d / 0x1000 % 8 == a.numFmt
      && d / 0x8000 % 0x10 == (if a.addTid then a.stride / 0x4000 % 0x10 else a.datFmt)
      && (a.swizzle ==> d / 0x20_0000 % 4 == a.idxStride) && (d / 0x80_0000 % 2 == 1 <==> a.addTid)
  {
    hide Word3, Pow2, BitField, Bit;
    var d := Word3(a);
    Word3RoundTrip(a);
    Powers();
    FieldIsPart(d, 12, 3);
    FieldIsPart(d, 15, 4);
    FieldIsPart(a.stride, 14, 4);
    FieldIsPart(d, 21, 2);
    BitIsPart(d, 23);
  }

  /** A base address below 2^48 and the arguments come back from the four registers of the descriptor: the
      stride from bits 16-29 of word 1 and, with add_tid_en, bits 15-18 of word 3; the swizzle flags from
      bits 30 and 31 of word 1; the formats from bits 12-14 and 15-18 of word 3; the index stride from bits
      21-22 and add_tid_en from bit 23. */
  lemma {:induction false} DescriptorHolds(desc: nat, base: nat, a: DescArgs, w: Wave, sched: seq<Mem>)
    requires |sched| >= 4 && Enums(a) && SReg(w.sgpr, base + 1) < 0x1_0000
    ensures var w' := Through(DescCode(desc, base, a), w, sched, 4);
      var d1, d3 := SReg(w'.sgpr, desc + 1), SReg(w'.sgpr, desc + 3);
      && SReg(w'.sgpr, desc) == SReg(w.sgpr, base) && d1 % 0x1_0000 == SReg(w.sgpr, base + 1)
      && d1 / 0x1_0000 % 0x4000 == a.stride % 0x4000
      && (d1 / 0x4000_0000 % 2 == 1 <==> a.cacheSwizzle) && (d1 / 0x8000_0000 % 2 == 1 <==> a.swizzle)
      && SReg(w'.sgpr, desc + 2) == a.recordNum
      && d3 / 0x1000 % 8 == a.numFmt
      && d3 / 0x8000 % 0x10 == (if a.addTid then a.stride / 0x4000 % 0x10 else a.datFmt)
      && (a.swizzle ==> d3 / 0x20_0000 % 4 == a.idxStride) && (d3 / 0x80_0000 % 2 == 1 <==> a.addTid)
  {
    hide Through, DescCode, Word1, Word3, Or, SReg;
    DescDoes(desc, base, a, w, sched);
    Word1Holds(a, SReg(w.sgpr, base + 1));
    Word3Holds(a);
  }
}

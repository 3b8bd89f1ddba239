/** The address of a compute unit's signal slots: the fields of the hardware id, and the regions of
    memory they lead to. */
module SlotAddr {
  import opened Words
  import opened Isa
  import opened Registers
  import opened Address
  import opened LinearAddr

  const FIELDS := 11
  const HW_ID_IMM: Word := 31 * 2048 + 4
  const CU_PER_SE := 16

  /** The first bit and the width of each field of HW_ID: wave, simd, pipe, cu, sh, se, thread group,
      vm, queue, state, micro engine. */
  function FieldLow(i: nat): (low: nat)
    requires i < FIELDS
  {
    [0, 4, 6, 8, 12, 13, 16, 20, 24, 27, 30][i]
  }

  function FieldWidth(i: nat): nat
    requires i < FIELDS
  {
    [4, 2, 2, 4, 1, 2, 4, 4, 3, 3, 2][i]
  }

  function FieldImm(i: nat): Word
    requires i < FIELDS
  {
    FieldWidth(i) * 0x1_0000 + FieldLow(i)
  }

  function Field(id: Word, i: nat): Word
    requires i < FIELDS
  {
    BitField(id, FieldLow(i), FieldWidth(i))
  }

  /** Read HW_ID and extract the fields asked for; None stands for "off". */
  function ReadHwId(dest: nat, outs: seq<Option<nat>>): seq<Instr>
    requires |outs| == FIELDS
  {
    [SGetreg(dest, HW_ID_IMM)] + Extracts(dest, outs, FIELDS)
  }

  /** The extractions of the first n fields. */
  function Extracts(dest: nat, outs: seq<Option<nat>>, n: nat): seq<Instr>
    requires n <= |outs| == FIELDS
  {
    if n == 0 then [] else Extracts(dest, outs, n - 1) + Extract(dest, outs, n - 1)
  }

  function Extract(dest: nat, outs: seq<Option<nat>>, i: nat): (b: seq<Instr>)
    requires i < |outs| == FIELDS
    ensures |b| <= 1
  {
    if outs[i].Some? then [SAlu(SBfe, outs[i].value, S(dest), Imm(FieldImm(i)))] else []
  }

  ghost predicate OutsApart(dest: nat, outs: seq<Option<nat>>) {
    && Some(dest) !in outs
    && forall i, j :: 0 <= i < j < |outs| && outs[i].Some? ==> outs[i] != outs[j]
  }

  ghost predicate OnlyScalars(w: Wave, w': Wave) {
    w' == w.(sgpr := w'.sgpr, scc := w'.scc, pc := w'.pc)
  }

  /** The first n fields asked for have been extracted; nothing else changed. */
  ghost predicate Extracted(id: Word, outs: seq<Option<nat>>, n: nat, w: Wave, w': Wave)
    requires n <= |outs| == FIELDS
  {
    && OnlyScalars(w, w')
    && (forall i :: 0 <= i < n && outs[i].Some? ==> SReg(w'.sgpr, outs[i].value) == Field(id, i))
    && (forall r: nat :: Some(r) !in outs[..n] ==> SReg(w'.sgpr, r) == SReg(w.sgpr, r))
  }

  lemma {:induction false} ExtractDoes(dest: nat, outs: seq<Option<nat>>, i: nat, w: Wave, sched: seq<Mem>)
    requires i < |outs| == FIELDS && |sched| >= 1
    ensures var w' := Through(Extract(dest, outs, i), w, sched, |Extract(dest, outs, i)|);
      && OnlyScalars(w, w')
      && (outs[i].Some? ==> SReg(w'.sgpr, outs[i].value) == Field(SReg(w.sgpr, dest), i))
      && (forall r: nat :: Some(r) != outs[i] ==> SReg(w'.sgpr, r) == SReg(w.sgpr, r))
  {
    hide Exec, BitField;
    var b := Extract(dest, outs, i);
    if b != [] {
      DoField(outs[i].value, S(dest), Imm(FieldImm(i)), w, sched[0]);
      ImmFields(i);
      Through1(b, w, sched);
    }
  }

  /** The immediate of s_bfe_u32 names the field. */
  lemma ImmFields(i: nat)
    requires i < FIELDS
    ensures FieldImm(i) % 32 == FieldLow(i) && FieldImm(i) / 0x1_0000 % 0x80 == FieldWidth(i)
    ensures ToWord(FieldImm(i)) == FieldImm(i)
  {
  }

  lemma OneFieldMore(dest: nat, outs: seq<Option<nat>>, n: nat, id: Word, w: Wave, w1: Wave, w': Wave)
    requires 0 < n <= |outs| == FIELDS && OutsApart(dest, outs)
    requires Extracted(id, outs, n - 1, w, w1) && OnlyScalars(w1, w')
    requires outs[n - 1].Some? ==> SReg(w'.sgpr, outs[n - 1].value) == Field(id, n - 1)
    requires forall r: nat :: Some(r) != outs[n - 1] ==> SReg(w'.sgpr, r) == SReg(w1.sgpr, r)
    ensures Extracted(id, outs, n, w, w')
  {
    hide Field, SReg;
    assert outs[..n] == outs[..n - 1] + [outs[n - 1]];
  }

  lemma {:induction false} ExtractsDo(dest: nat, outs: seq<Option<nat>>, n: nat, w: Wave, sched: seq<Mem>)
    requires n <= |outs| == FIELDS && OutsApart(dest, outs) && |sched| >= n
    ensures |Extracts(dest, outs, n)| <= n
    ensures Extracted(SReg(w.sgpr, dest), outs, n, w,
      Through(Extracts(dest, outs, n), w, sched, |Extracts(dest, outs, n)|))
  {
    hide Exec, Through, Field, Extract, SReg;
    if n > 0 {
      ExtractsDo(dest, outs, n - 1, w, sched);
      var a, b := Extracts(dest, outs, n - 1), Extract(dest, outs, n - 1);
      var w1 := Through(a, w, sched, |a|);
      ThroughBoth(a, b, w, sched);
      ExtractDoes(dest, outs, n - 1, w1, sched[|a|..]);
      assert SReg(w1.sgpr, dest) == SReg(w.sgpr, dest);
      OneFieldMore(dest, outs, n, SReg(w.sgpr, dest), w, w1, Through(b, w1, sched[|a|..], |b|));
    } else {
      assert Through([], w, sched, 0) == w by { NoStep(w, sched); }
    }
  }

  lemma NoStep(w: Wave, sched: seq<Mem>)
    ensures Through([], w, sched, 0) == w
  {
  }

  lemma {:induction false} ReadFields(dest: nat, outs: seq<Option<nat>>, w: Wave, sched: seq<Mem>)
    requires |outs| == FIELDS && OutsApart(dest, outs) && |sched| >= 12
    ensures |ReadHwId(dest, outs)| <= 12
    ensures var w' := Through(ReadHwId(dest, outs), w, sched, |ReadHwId(dest, outs)|);
      && OnlyScalars(w, w')
      && (forall i :: 0 <= i < FIELDS && outs[i].Some? ==> SReg(w'.sgpr, outs[i].value) == Field(w.hwId, i))
      && (forall r: nat :: r != dest && Some(r) !in outs ==> SReg(w'.sgpr, r) == SReg(w.sgpr, r))
  {
    hide Exec, Through, Field, Extracts;
    var a, b := [SGetreg(dest, HW_ID_IMM)], Extracts(dest, outs, FIELDS);
    DoGetreg(dest, HW_ID_IMM, w, sched[0]);
    WholeRegister(w);
    Through1(a, w, sched);
    var w1 := Through(a, w, sched, 1);
    ExtractsDo(dest, outs, FIELDS, w1, sched[1..]);
    ThroughBoth(a, b, w, sched);
    assert outs[..FIELDS] == outs;
  }

  // ---------------------------------------------------------------------------------------------
  // The fields, bit by bit
  // ---------------------------------------------------------------------------------------------

  lemma Powers()
    ensures Pow2(1) == 2 && Pow2(2) == 4 && Pow2(3) == 8 && Pow2(4) == 0x10 && Pow2(6) == 0x40 && Pow2(8) == 0x100
    ensures Pow2(12) == 0x1000 && Pow2(13) == 0x2000 && Pow2(16) == 0x1_0000 && Pow2(20) == 0x10_0000
    ensures Pow2(24) == 0x100_0000 && Pow2(27) == 0x800_0000 && Pow2(30) == 0x4000_0000
  {
    assert Pow2(0) == 1 && Pow2(1) == 2 && Pow2(2) == 4 && Pow2(3) == 8 && Pow2(4) == 0x10;
    hide Pow2;
    Pow2Add(4, 2);
    Pow2Add(4, 4);
    Pow2Add(8, 4);
    Pow2Add(12, 1);
    Pow2Add(8, 8);
    Pow2Add(16, 4);
    Pow2Add(16, 8);
    Pow2Add(24, 3);
    Pow2Add(27, 3);
  }

  lemma FieldIsPart(id: Word, i: nat)
    requires i < FIELDS
    ensures Field(id, i) == id / Pow2(FieldLow(i)) % Pow2(FieldWidth(i))
  {
    hide Pow2, Halve, FieldLow, FieldWidth;
    HalvePow2(id, FieldLow(i));
  }

  /** The eleven fields as numbers: wave in bits 0-3, simd 4-5, pipe 6-7, cu 8-11, sh 12, se 13-14, thread
      group 16-19, vm 20-23, queue 24-26, state 27-29, micro engine 30-31. */
  lemma {:induction false} FieldBits(id: Word)
    ensures Field(id, 0) == id % 0x10 && Field(id, 1) == id / 0x10 % 4 && Field(id, 2) == id / 0x40 % 4
    ensures Field(id, 3) == id / 0x100 % 0x10 && Field(id, 4) == id / 0x1000 % 2 && Field(id, 5) == id / 0x2000 % 4
    ensures Field(id, 6) == id / 0x1_0000 % 0x10 && Field(id, 7) == id / 0x10_0000 % 0x10
    ensures Field(id, 8) == id / 0x100_0000 % 8 && Field(id, 9) == id / 0x800_0000 % 8
    ensures Field(id, 10) == id / 0x4000_0000 % 4
  {
    Powers();
    assert Pow2(0) == 1;
    hide Pow2, Field;
    forall i: nat | i < FIELDS ensures Field(id, i) == id / Pow2(FieldLow(i)) % Pow2(FieldWidth(i)) {
      FieldIsPart(id, i);
    }
    FieldIsPart(id, 0);
  }

  /** Each register asked for holds its bits of the id. */
  ghost predicate HoldsFields(id: Word, outs: seq<Option<nat>>, f: Sgprs)
    requires |outs| == FIELDS
  {
    && (outs[0].Some? ==> SReg(f, outs[0].value) == id % 0x10)
    && (outs[1].Some? ==> SReg(f, outs[1].value) == id / 0x10 % 4)
    && (outs[2].Some? ==> SReg(f, outs[2].value) == id / 0x40 % 4)
    && (outs[3].Some? ==> SReg(f, outs[3].value) == id / 0x100 % 0x10)
    && (outs[4].Some? ==> SReg(f, outs[4].value) == id / 0x1000 % 2)
    && (outs[5].Some? ==> SReg(f, outs[5].value) == id / 0x2000 % 4)
    && (outs[6].Some? ==> SReg(f, outs[6].value) == id / 0x1_0000 % 0x10)
    && (outs[7].Some? ==> SReg(f, outs[7].value) == id / 0x10_0000 % 0x10)
    && (outs[8].Some? ==> SReg(f, outs[8].value) == id / 0x100_0000 % 8)
    && (outs[9].Some? ==> SReg(f, outs[9].value) == id / 0x800_0000 % 8)
    && (outs[10].Some? ==> SReg(f, outs[10].value) == id / 0x4000_0000 % 4)
  }

  /** Every field asked for, in any combination, ends in its register, and nothing else changes. */
  lemma {:induction false} ReadHwIdDoes(dest: nat, outs: seq<Option<nat>>, w: Wave, sched: seq<Mem>)
    requires |outs| == FIELDS && OutsApart(dest, outs) && |sched| >= 12
    ensures |ReadHwId(dest, outs)| <= 12
    ensures var w' := Through(ReadHwId(dest, outs), w, sched, |ReadHwId(dest, outs)|);
      && OnlyScalars(w, w') && HoldsFields(w.hwId, outs, w'.sgpr)
      && (forall r: nat :: r != dest && Some(r) !in outs ==> SReg(w'.sgpr, r) == SReg(w.sgpr, r))
  {
    hide Exec, Through, Field, ReadHwId, OutsApart, SReg;
    ReadFields(dest, outs, w, sched);
    FieldBits(w.hwId);
  }

  lemma WholeRegister(w: Wave)
    ensures HwReg(w, HW_ID_IMM) == w.hwId
  {
    Pow2Of32();
    assert BitField(w.hwId, 0, 32) == w.hwId;
  }

  ghost predicate SameFields(a: Word, b: Word) {
    forall i :: 0 <= i < FIELDS ==> Field(a, i) == Field(b, i)
  }

  ghost predicate SameButBit15(a: Word, b: Word) {
    forall k: nat :: k < 32 && k != 15 ==> Bit(a, k) == Bit(b, k)
  }

  /** The fields lose nothing but bit 15: two ids have the same fields exactly when they agree in every
      other bit. */
  lemma FieldsDetermine(a: Word, b: Word)
    ensures SameFields(a, b) <==> SameButBit15(a, b)
  {
    hide Field, FieldLow, FieldWidth, FieldOf;
    if SameFields(a, b) {
      forall k: nat | k < 32 && k != 15 ensures Bit(a, k) == Bit(b, k) {
        assert Field(a, FieldOf(k)) == Field(b, FieldOf(k));
        FieldBit(a, FieldOf(k), k);
        FieldBit(b, FieldOf(k), k);
      }
    }
    if SameButBit15(a, b) {
      forall i | 0 <= i < FIELDS ensures Field(a, i) == Field(b, i) { SameField(a, b, i); }
    }
  }

  lemma SameField(a: Word, b: Word, i: nat)
    requires i < FIELDS && SameButBit15(a, b)
    ensures Field(a, i) == Field(b, i)
  {
    hide Field, Pow2;
    FieldSpan(i);
    forall j: nat | j < FieldWidth(i) ensures Bit(Field(a, i), j) == Bit(Field(b, i), j) {
      FieldBit(a, i, FieldLow(i) + j);
      FieldBit(b, i, FieldLow(i) + j);
    }
    FieldSmall(a, i);
    FieldSmall(b, i);
    SameBits(Field(a, i), Field(b, i), FieldWidth(i));
  }

  lemma FieldSpan(i: nat)
    requires i < FIELDS
    ensures FieldLow(i) + FieldWidth(i) <= 32 && !(FieldLow(i) <= 15 < FieldLow(i) + FieldWidth(i))
  {
  }

  lemma FieldSmall(a: Word, i: nat)
    requires i < FIELDS
    ensures Field(a, i) < Pow2(FieldWidth(i))
  {
    hide Pow2, Halve, FieldWidth, FieldLow;
  }

  /** The field a bit lies in. */
  function FieldOf(k: nat): (i: nat)
    requires k < 32 && k != 15
    ensures i < FIELDS && FieldLow(i) <= k < FieldLow(i) + FieldWidth(i)
  {
    if k < 4 then 0 else if k < 6 then 1 else if k < 8 then 2 else if k < 12 then 3 else if k < 13 then 4
    else if k < 15 then 5 else if k < 20 then 6 else if k < 24 then 7 else if k < 27 then 8
    else if k < 30 then 9 else 10
  }

  lemma FieldBit(a: Word, i: nat, k: nat)
    requires i < FIELDS && FieldLow(i) <= k < FieldLow(i) + FieldWidth(i) && k < 32
    ensures Bit(Field(a, i), k - FieldLow(i)) == Bit(a, k)
  {
    BitFieldBit(a, FieldLow(i), FieldWidth(i), k - FieldLow(i));
  }

  // ---------------------------------------------------------------------------------------------
  // The slot address
  // ---------------------------------------------------------------------------------------------

  datatype SlotRegs = SlotRegs(dest: nat, tmp: nat, cu: nat, se: nat, out: nat, ptr: nat)

  ghost predicate SlotApart(r: SlotRegs) {
    && r.dest !in {r.tmp, r.cu, r.se, r.ptr, r.ptr + 1}
    && r.tmp !in {r.cu, r.se, r.ptr, r.ptr + 1}
    && r.cu !in {r.se, r.ptr, r.ptr + 1}
    && r.se !in {r.ptr, r.ptr + 1}
    && r.out != r.ptr + 1
  }

  /** Only the compute unit (3) and the shader engine (5) are asked for. */
  function SlotOuts(r: SlotRegs): seq<Option<nat>> {
    [None, None, None, Some(r.cu), None, Some(r.se), None, None, None, None, None]
  }

  function SlotIndex(r: SlotRegs, size: int): seq<Instr> {
    [SAlu(SLshl, r.tmp, S(r.se), Imm(Log2Of(CU_PER_SE))),
     SAlu(SAdd, r.cu, S(r.tmp), S(r.cu)),
     SAlu(SLshl, r.tmp, S(r.cu), Imm(Log2Of(size) + 2))]
  }

  function SlotCode(r: SlotRegs, size: int): seq<Instr> {
    ReadHwId(r.dest, SlotOuts(r)) + SlotIndex(r, size) + WideAdd(r.out, r.ptr, S(r.tmp))
  }

  /** The number of a compute unit among all of the device. */
  function UnitOf(se: nat, cu: nat): nat {
    CU_PER_SE * se + cu
  }

  /** How far the slots of unit u lie behind the pointer. */
  function SlotOffset(u: nat, size: int): nat {
    Times(u, 4 * Pow2(Log2Of(size)))
  }

  lemma Log2Small(size: int)
    requires size < 0x200_0000
    ensures Log2Of(size) < 25 && Pow2(Log2Of(size)) <= 0x100_0000
  {
    Pow2Of24();
    assert Log2Of(size) == 0 || size >= 1;
    if size >= 1 { Log2Bounds(size); }
    hide Log2Of;
    assert Pow2(25) == 0x200_0000 by { assert Pow2(25) == 2 * Pow2(24); }
    if Log2Of(size) >= 25 { Pow2Mono(25, Log2Of(size)); }
    Pow2Mono(Log2Of(size), 24);
  }

  lemma Pow2Of24()
    ensures Pow2(24) == 0x100_0000
  {
    assert Pow2(8) == 256;
    Pow2Add(8, 8);
    Pow2Add(16, 8);
  }

  lemma OffsetBound(u: nat, size: int)
    requires u < 64 && size < 0x200_0000
    ensures SlotOffset(u, size) < TWO32
    ensures Pow2(Log2Of(size) + 2) == 4 * Pow2(Log2Of(size))
  {
    Log2Small(size);
    assert Pow2(2) == 4;
    hide Pow2, Log2Of, Times;
    var p := Pow2(Log2Of(size));
    Pow2Add(2, Log2Of(size));
    MulBound(u, 4 * p);
  }

  lemma MulBound(u: nat, p: nat)
    requires u < 64
    ensures Times(u, p) <= 63 * p
  {
    assert 63 * p == u * p + (63 - u) * p;
  }

  ghost predicate AfterIndex(r: SlotRegs, size: int, w: Wave, w': Wave) {
    && OnlyScalars(w, w')
    && SReg(w'.sgpr, r.tmp) == SlotOffset(UnitOf(SReg(w.sgpr, r.se), SReg(w.sgpr, r.cu)), size)
    && (forall x: nat :: x !in {r.tmp, r.cu} ==> SReg(w'.sgpr, x) == SReg(w.sgpr, x))
  }

  function Shifted(d: nat, s: nat, n: nat, w: Wave): (r: Wave)
    ensures SReg(r.sgpr, d) == Shl(SReg(w.sgpr, s), ToWord(n))
    ensures OnlyScalars(w, r) && forall x: nat :: x != d ==> SReg(r.sgpr, x) == SReg(w.sgpr, x)
  {
    var v := Shl(SReg(w.sgpr, s), ToWord(n));
    w.WithScalar(d, v).(scc := v != 0, pc := w.pc + 1)
  }

  function Summed(d: nat, s: nat, w: Wave): (r: Wave)
    ensures SReg(r.sgpr, d) == (SReg(w.sgpr, s) + SReg(w.sgpr, d)) % TWO32
    ensures OnlyScalars(w, r) && forall x: nat :: x != d ==> SReg(r.sgpr, x) == SReg(w.sgpr, x)
  {
    var t := SReg(w.sgpr, s) + SReg(w.sgpr, d);
    w.WithScalar(d, t % TWO32).(scc := t >= TWO32, pc := w.pc + 1)
  }

  lemma ShiftedBy(d: nat, s: nat, n: nat, w: Wave, m: Mem)
    ensures Exec(SAlu(SLshl, d, S(s), Imm(n)), w, m).0 == Shifted(d, s, n, w)
  {
    hide Exec, Shl, LowWord, HighWord;
    DoShift(d, S(s), Imm(n), w, m);
  }

  lemma SummedTo(d: nat, s: nat, w: Wave, m: Mem)
    ensures Exec(SAlu(SAdd, d, S(s), S(d)), w, m).0 == Summed(d, s, w)
  {
    hide Exec, LowWord, HighWord;
    DoSum(d, S(s), S(d), w, m);
  }

  lemma {:induction false} IndexRuns(r: SlotRegs, size: int, w: Wave, sched: seq<Mem>)
    requires |sched| >= 3
    ensures Through(SlotIndex(r, size), w, sched, 3) ==
      Shifted(r.tmp, r.cu, Log2Of(size) + 2, Summed(r.cu, r.tmp, Shifted(r.tmp, r.se, Log2Of(CU_PER_SE), w)))
  {
    hide Through, Exec, Shifted, Summed, Log2Of;
    var w1 := Shifted(r.tmp, r.se, Log2Of(CU_PER_SE), w);
    ShiftedBy(r.tmp, r.se, Log2Of(CU_PER_SE), w, sched[0]);
    SummedTo(r.cu, r.tmp, w1, sched[1]);
    ShiftedBy(r.tmp, r.cu, Log2Of(size) + 2, Summed(r.cu, r.tmp, w1), sched[2]);
    Through3(SlotIndex(r, size), w, sched);
  }

  lemma IndexDoes(r: SlotRegs, size: int, w: Wave, sched: seq<Mem>)
    requires SlotApart(r) && size < 0x200_0000 && |sched| >= 3
    requires SReg(w.sgpr, r.se) < 4 && SReg(w.sgpr, r.cu) < 16
    ensures AfterIndex(r, size, w, Through(SlotIndex(r, size), w, sched, 3))
  {
    hide Through, SlotIndex, Shl, Log2Of, SlotOffset, Pow2, UnitOf, Times, Shifted, Summed, SReg;
    var se, cu := SReg(w.sgpr, r.se), SReg(w.sgpr, r.cu);
    IndexRuns(r, size, w, sched);
    UnitShift(se, cu);
    SizeShift(UnitOf(se, cu), size);
  }

  lemma UnitShift(se: Word, cu: Word)
    requires se < 4 && cu < 16
    ensures Log2Of(CU_PER_SE) == 4
    ensures (Shl(se, 4) + cu) % TWO32 == UnitOf(se, cu) < 64
  {
    Sixteen();
    hide Pow2, Log2Of, Shl, Times;
    ShlIs(se, 4);
    TimesIs(se, 16);
  }

  lemma Sixteen()
    ensures Log2Of(CU_PER_SE) == 4 && Pow2(4) == 16
  {
    Log2OfPow2(4);
  }

  lemma SizeShift(u: Word, size: int)
    requires u < 64 && size < 0x200_0000
    ensures Log2Of(size) < 25 && Shl(u, Log2Of(size) + 2) == SlotOffset(u, size)
  {
    hide Pow2, Log2Of, Shl, Times;
    Log2Small(size);
    ShlIs(u, Log2Of(size) + 2);
    OffsetBound(u, size);
  }

  lemma TimesIs(a: nat, b: nat)
    ensures Times(a, b) == a * b
  {
  }

  lemma SlotLengths(r: SlotRegs, size: int)
    ensures |SlotIndex(r, size)| == 3 && |WideAdd(r.out, r.ptr, S(r.tmp))| == 2
  {
  }

  /** The two fields asked for, and the pointer as it was. */
  lemma {:induction false} IdRead(r: SlotRegs, w: Wave, sched: seq<Mem>)
    requires SlotApart(r) && |sched| >= 12
    ensures |ReadHwId(r.dest, SlotOuts(r))| <= 12
    ensures var w' := Through(ReadHwId(r.dest, SlotOuts(r)), w, sched, |ReadHwId(r.dest, SlotOuts(r))|);
      && w'.Scalar64(r.ptr) == w.Scalar64(r.ptr)
      && SReg(w'.sgpr, r.se) == Field(w.hwId, 5) < 4 && SReg(w'.sgpr, r.cu) == Field(w.hwId, 3) < 16
  {
    hide Through, Exec, ReadHwId, Field;
    var outs := SlotOuts(r);
    assert outs[3] == Some(r.cu) && outs[5] == Some(r.se);
    ReadFields(r.dest, outs, w, sched);
    FieldSmall(w.hwId, 5);
    FieldSmall(w.hwId, 3);
    assert Pow2(2) == 4 && Pow2(4) == 16;
  }

  lemma {:induction false} SlotOfUnit(r: SlotRegs, size: int, w: Wave, sched: seq<Mem>)
    requires SlotApart(r) && size < 0x200_0000 && |sched| >= 17
    ensures |SlotCode(r, size)| <= 17
    ensures Through(SlotCode(r, size), w, sched, |SlotCode(r, size)|).Scalar64(r.out) ==
      (w.Scalar64(r.ptr) + SlotOffset(UnitOf(Field(w.hwId, 5), Field(w.hwId, 3)), size)) % TWO64
  {
    hide Through, Exec, ReadHwId, SlotIndex, WideAdd, Field, SlotOffset, Wave.Scalar64, UnitOf;
    var a, b, c := ReadHwId(r.dest, SlotOuts(r)), SlotIndex(r, size), WideAdd(r.out, r.ptr, S(r.tmp));
    SlotLengths(r, size);
    IdRead(r, w, sched);
    var w1 := Through(a, w, sched, |a|);
    IndexDoes(r, size, w1, sched[|a|..]);
    ThroughBoth(a, b, w, sched);
    var w2 := Through(a + b, w, sched, |a + b|);
    WideAddDoes(r.out, r.ptr, S(r.tmp), w2, sched[|a + b|..]);
    ThroughBoth(a + b, c, w, sched);
    assert w2.Scalar64(r.ptr) == w1.Scalar64(r.ptr) &&
      w2.Value(S(r.tmp), 0) == SReg(w2.sgpr, r.tmp) by { PtrKept(r, size, w1, w2); }
  }

  /** The emitted code leaves in s_signal_slot_addr the pointer plus so many slots of 4 bytes, rounded down
      to a power of two, for each compute unit before the one the wave runs on: bits 8-11 of the hardware id
      count compute units, bits 13-14 shader engines. Nothing else of the id matters. */
  lemma {:induction false} SlotAddress(r: SlotRegs, size: int, w: Wave, sched: seq<Mem>)
    requires SlotApart(r) && size < 0x200_0000 && |sched| >= 17
    ensures |SlotCode(r, size)| <= 17
    ensures Through(SlotCode(r, size), w, sched, |SlotCode(r, size)|).Scalar64(r.out) ==
      (w.Scalar64(r.ptr) + (16 * (w.hwId / 0x2000 % 4) + w.hwId / 0x100 % 16) * (4 * Pow2(Log2Of(size)))) % TWO64
  {
    hide Through, SlotCode, Field, Wave.Scalar64, Pow2, Log2Of;
    SlotOfUnit(r, size, w, sched);
    FieldBits(w.hwId);
    TimesIs(16 * (w.hwId / 0x2000 % 4) + w.hwId / 0x100 % 16, 4 * Pow2(Log2Of(size)));
  }

  lemma PtrKept(r: SlotRegs, size: int, w: Wave, w': Wave)
    requires SlotApart(r) && AfterIndex(r, size, w, w')
    ensures w'.Scalar64(r.ptr) == w.Scalar64(r.ptr) && w'.Value(S(r.tmp), 0) == SReg(w'.sgpr, r.tmp)
  {
  }

  /** The slot words of two compute units never overlap exactly when the slot size is a power of two. */
  lemma RegionsDisjoint(size: nat)
    requires size >= 1
    ensures IsPower(size) <==> forall u, v :: 0 <= u < v < 64 ==> SlotOffset(u, size) + 4 * size <= SlotOffset(v, size)
  {
    PowerIsLog2(size);
    Log2Bounds(size);
    hide Pow2, Log2Of, IsPower, Times;
    var p := Pow2(Log2Of(size));
    if size == p {
      forall u, v | 0 <= u < v < 64 ensures SlotOffset(u, size) + 4 * size <= SlotOffset(v, size) {
        OneApart(u, v, 4 * p);
      }
    } else {
      TimesIs(0, 4 * p);
      TimesIs(1, 4 * p);
      assert SlotOffset(0, size) + 4 * size > SlotOffset(1, size);
    }
  }

  lemma {:induction false} OneApart(u: nat, v: nat, p: nat)
    requires u < v
    ensures Times(u, p) + p <= Times(v, p)
  {
    MulOrder(p, u, v);
  }

  // ---------------------------------------------------------------------------------------------
  // The slots of two waves
  // ---------------------------------------------------------------------------------------------

  /** The slot address a wave gets. */
  function SlotBase(r: SlotRegs, size: int, w: Wave, sched: seq<Mem>): nat
    requires |SlotCode(r, size)| <= |sched|
  {
    Through(SlotCode(r, size), w, sched, |SlotCode(r, size)|).Scalar64(r.out)
  }

  /** The number of the compute unit a hardware id names. */
  function UnitNumber(id: Word): nat {
    16 * (id / 0x2000 % 4) + id / 0x100 % 16
  }

  lemma UnitIs(id: Word)
    ensures UnitOf(Field(id, 5), Field(id, 3)) == UnitNumber(id) < 64
  {
    hide Field;
    FieldBits(id);
  }

  /** Two waves have the same unit exactly when they have the same compute unit and shader engine. */
  lemma {:induction false} UnitsDistinct(a: Word, b: Word)
    ensures UnitNumber(a) == UnitNumber(b) <==> a / 0x100 % 16 == b / 0x100 % 16 && a / 0x2000 % 4 == b / 0x2000 % 4
    ensures UnitNumber(a) < 64
  {
  }

  /** Two waves with the same pointer get the same slots exactly when their ids agree in bits 8-11 and
      13-14. */
  lemma {:induction false} SameSlots(r: SlotRegs, size: int, a: Wave, sa: seq<Mem>, b: Wave, sb: seq<Mem>)
    requires SlotApart(r) && size < 0x200_0000 && |sa| >= 17 && |sb| >= 17 && a.Scalar64(r.ptr) == b.Scalar64(r.ptr)
    ensures |SlotCode(r, size)| <= 17
    ensures SlotBase(r, size, a, sa) == SlotBase(r, size, b, sb) <==>
      a.hwId / 0x100 % 16 == b.hwId / 0x100 % 16 && a.hwId / 0x2000 % 4 == b.hwId / 0x2000 % 4
  {
    hide Through, SlotCode, Field, SlotOffset, Wave.Scalar64, UnitOf, SlotApart;
    SlotOfUnit(r, size, a, sa);
    SlotOfUnit(r, size, b, sb);
    UnitIs(a.hwId);
    UnitIs(b.hwId);
    var x, u, v := a.Scalar64(r.ptr), UnitNumber(a.hwId), UnitNumber(b.hwId);
    OffsetBound(u, size);
    OffsetBound(v, size);
    if u < v {
      OffsetGrows(u, v, size);
      ModSum(x + SlotOffset(u, size), SlotOffset(v, size) - SlotOffset(u, size));
    } else if v < u {
      OffsetGrows(v, u, size);
      ModSum(x + SlotOffset(v, size), SlotOffset(u, size) - SlotOffset(v, size));
    }
  }

  lemma OffsetGrows(u: nat, v: nat, size: int)
    requires u < v
    ensures SlotOffset(u, size) < SlotOffset(v, size)
  {
    hide Pow2, Log2Of, Times;
    OneApart(u, v, 4 * Pow2(Log2Of(size)));
  }

  /** Byte i from address x on. */
  function ByteAt(x: nat, i: nat): nat {
    (x + i) % TWO64
  }

  /** The n bytes from x on and the n bytes from y on are different bytes. */
  ghost predicate BytesApart(x: nat, y: nat, n: nat) {
    forall i: nat, j: nat :: i < n && j < n ==> ByteAt(x, i) != ByteAt(y, j)
  }

  lemma ByteBehind(x: nat, o: nat, q: nat, i: nat, j: nat)
    requires o + i < q + j < TWO32 + TWO32
    ensures ByteAt((x + o) % TWO64, i) != ByteAt((x + q) % TWO64, j)
  {
    ModSum(x + o, i);
    ModSum(x + q, j);
    ModSum(x + o + i, q + j - o - i);
  }

  lemma ApartBehind(x: nat, o: nat, q: nat, n: nat)
    requires o <= q < TWO32 && n < TWO32
    ensures BytesApart((x + o) % TWO64, (x + q) % TWO64, n) <==> n == 0 || o + n <= q
  {
    hide ByteAt;
    var c, d := (x + o) % TWO64, (x + q) % TWO64;
    if o + n <= q {
      forall i: nat, j: nat | i < n && j < n ensures ByteAt(c, i) != ByteAt(d, j) { ByteBehind(x, o, q, i, j); }
    } else if n > 0 {
      assert ByteAt(c, q - o) == ByteAt(d, 0) by { SameByte(x, o, q); }
    }
  }

  lemma SameByte(x: nat, o: nat, q: nat)
    requires o <= q < TWO32
    ensures ByteAt((x + o) % TWO64, q - o) == ByteAt((x + q) % TWO64, 0)
  {
    ModSum(x + o, q - o);
    ModSum(x + q, 0);
  }

  lemma ApartBoth(x: nat, y: nat, n: nat)
    ensures BytesApart(x, y, n) <==> BytesApart(y, x, n)
  {
  }

  /** Two units, the first the smaller one. */
  lemma {:induction false} OffsetsApart(size: nat, u: nat, v: nat)
    requires size >= 1 && u <= v
    ensures SlotOffset(u, size) <= SlotOffset(v, size)
    ensures SlotOffset(u, size) + 4 * size <= SlotOffset(v, size) <==> u != v && (IsPower(size) || u + 2 <= v)
  {
    PowerIsLog2(size);
    Log2Bounds(size);
    hide Pow2, Log2Of, IsPower, Times;
    var p := 4 * Pow2(Log2Of(size));
    if u != v { OneApart(u, v, p); }
    if u + 1 == v { TimesUp(u, p); }
    if u + 2 <= v {
      OneApart(u, u + 1, p);
      OneApart(u + 1, v, p);
    }
  }

  lemma TimesUp(u: nat, p: nat)
    ensures Times(u + 1, p) == Times(u, p) + p
  {
  }

  /** The slots the emitted code finds for two waves with the same pointer do not overlap exactly when the
      waves run on different compute units, and either the slot size is a power of two or the numbers of
      the units are at least 2 apart. */
  lemma {:induction false} WaveRegions(r: SlotRegs, size: nat, a: Wave, sa: seq<Mem>, b: Wave, sb: seq<Mem>)
    requires SlotApart(r) && 1 <= size < 0x200_0000 && |sa| >= 17 && |sb| >= 17
    requires a.Scalar64(r.ptr) == b.Scalar64(r.ptr)
    ensures |SlotCode(r, size)| <= 17
    ensures BytesApart(SlotBase(r, size, a, sa), SlotBase(r, size, b, sb), 4 * size) <==>
      && (a.hwId / 0x100 % 16 != b.hwId / 0x100 % 16 || a.hwId / 0x2000 % 4 != b.hwId / 0x2000 % 4)
      && (IsPower(size) || UnitNumber(a.hwId) + 2 <= UnitNumber(b.hwId) || UnitNumber(b.hwId) + 2 <= UnitNumber(a.hwId))
  {
    hide Through, SlotCode, Field, SlotOffset, Wave.Scalar64, UnitOf, IsPower, BytesApart, SlotApart;
    SlotOfUnit(r, size, a, sa);
    SlotOfUnit(r, size, b, sb);
    UnitIs(a.hwId);
    UnitIs(b.hwId);
    var x, u, v := a.Scalar64(r.ptr), UnitNumber(a.hwId), UnitNumber(b.hwId);
    OffsetBound(u, size);
    OffsetBound(v, size);
    if u <= v {
      OffsetsApart(size, u, v);
      ApartBehind(x, SlotOffset(u, size), SlotOffset(v, size), 4 * size);
    } else {
      OffsetsApart(size, v, u);
      ApartBehind(x, SlotOffset(v, size), SlotOffset(u, size), 4 * size);
      ApartBoth(SlotBase(r, size, a, sa), SlotBase(r, size, b, sb), 4 * size);
    }
  }
}

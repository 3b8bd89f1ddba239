/** The address of a thread in a linear buffer: the emitted code and what it computes. */
module LinearAddr {
  import opened Words
  import opened Isa
  import opened Address

  /** The registers f_linear_addr works with. */
  datatype LinearRegs = LinearRegs(tmp1: nat, tmp2: nat, gid: nat, tid: nat, base: nat, addr: nat)

  ghost predicate LinearApart(r: LinearRegs) {
    && r.tmp1 !in {r.tmp2, r.addr, r.addr + 1, r.tid}
    && r.tmp2 !in {r.addr, r.addr + 1}
  }

  function LinearOffset(r: LinearRegs, groupSize: int): seq<Instr> {
    [VAlu(VLshlRev, r.tmp1, Imm(Log2Of(groupSize)), S(r.gid), NONE),
     VAlu(VAddLshl, r.tmp1, V(r.tmp1), V(r.tid), Imm(2))]
  }

  function LinearCode(r: LinearRegs, groupSize: int): seq<Instr> {
    LinearOffset(r, groupSize) + AddToBase(r.addr, r.base, r.tmp1, r.tmp2)
  }

  /** The byte offset of thread tid of group gid when groups have `size` threads. */
  function Bytes(gid: nat, size: nat, tid: nat): nat {
    4 * (Times(gid, size) + tid)
  }

  lemma ShiftedSum(y: nat, t: nat)
    ensures ((y % TWO32 + t) % TWO32 * 4) % TWO32 == (4 * (y + t)) % TWO32
  {
    var q, s := y / TWO32, y % TWO32;
    var c, u := (s + t) / TWO32, (s + t) % TWO32;
    assert 4 * (y + t) == TWO32 * (4 * q + 4 * c) + 4 * u;
  }

  lemma {:induction false} ScaleShift(gid: Word, groupSize: int)
    requires groupSize < 0x2000_0000
    ensures VectorCalc(VLshlRev, ToWord(Log2Of(groupSize)), gid, 0) == Times(gid, Pow2(Log2Of(groupSize))) % TWO32
  {
    hide Shl, Log2Of, Pow2, Times;
    SmallLog2(groupSize);
    ShlIs(gid, Log2Of(groupSize));
  }

  lemma AddShift(a: Word, t: Word)
    ensures VectorCalc(VAddLshl, a, t, 2) == ((a + t) % TWO32 * 4) % TWO32
  {
    assert Pow2(2) == 4;
  }

  /** In 32 bits the shifts and the sum give the offset for the largest power of two not above the
      group size, modulo 2^32. */
  lemma {:induction false} OffsetOf(gid: Word, tid: Word, groupSize: int)
    requires groupSize < 0x2000_0000
    ensures VectorCalc(VAddLshl, VectorCalc(VLshlRev, ToWord(Log2Of(groupSize)), gid, 0), tid, 2)
         == Bytes(gid, Pow2(Log2Of(groupSize)), tid) % TWO32
  {
    hide VectorCalc, Log2Of, Pow2, Times, ToWord;
    ScaleShift(gid, groupSize);
    var y := Times(gid, Pow2(Log2Of(groupSize)));
    AddShift(y % TWO32, tid);
    ShiftedSum(y, tid);
  }

  lemma SmallLog2(n: int)
    requires n < 0x2000_0000
    ensures Log2Of(n) < 29
  {
    Pow2Of29();
    hide Pow2;
    if n >= 1 {
      Log2Bounds(n);
      hide Log2Of;
      if Log2Of(n) >= 29 { Pow2Mono(29, Log2Of(n)); }
    }
  }

  ghost predicate AfterLinear(r: LinearRegs, groupSize: int, w: Wave, w': Wave) {
    && w' == w.(vgpr := w'.vgpr, vcc := w'.vcc, pc := w.pc + 5)
    && (forall l :: 0 <= l < 64 && w.exec[l] ==>
      w'.Lane64(r.addr, l) ==
        (w.Scalar64(r.base) +
          Bytes(SReg(w.sgpr, r.gid), Pow2(Log2Of(groupSize)), VReg(w.vgpr, r.tid, l)) % TWO32) % TWO64)
    && (forall v: nat, l :: v !in {r.tmp1, r.tmp2, r.addr, r.addr + 1} && 0 <= l < 64 ==>
      VReg(w'.vgpr, v, l) == VReg(w.vgpr, v, l))
  }

  ghost predicate AfterOffset(r: LinearRegs, groupSize: int, w: Wave, w': Wave) {
    && w' == w.(vgpr := w'.vgpr, pc := w.pc + 2)
    && (forall l :: 0 <= l < 64 && w.exec[l] ==>
      VReg(w'.vgpr, r.tmp1, l) == Bytes(SReg(w.sgpr, r.gid), Pow2(Log2Of(groupSize)), VReg(w.vgpr, r.tid, l)) % TWO32)
    && (forall v: nat, l :: v != r.tmp1 && 0 <= l < 64 ==> VReg(w'.vgpr, v, l) == VReg(w.vgpr, v, l))
  }

  lemma OffsetDoes(r: LinearRegs, groupSize: int, w: Wave, sched: seq<Mem>)
    requires LinearApart(r) && groupSize < 0x2000_0000 && |sched| >= 2
    ensures AfterOffset(r, groupSize, w, Through(LinearOffset(r, groupSize), w, sched, 2))
  {
    hide Through, Exec, SetLanes, VectorLanes, VectorCalc, LowWord, Log2Of, Pow2, Bytes, ToWord;
    var sh := Imm(Log2Of(groupSize));
    var w1 := w.(vgpr := SetLanes(w.vgpr, w.exec, r.tmp1, VectorLanes(w, VLshlRev, sh, S(r.gid), NONE)),
      pc := w.pc + 1);
    DoVector(VLshlRev, r.tmp1, sh, S(r.gid), NONE, w, sched[0]);
    var w2 := w1.(vgpr := SetLanes(w1.vgpr, w1.exec, r.tmp1, VectorLanes(w1, VAddLshl, V(r.tmp1), V(r.tid), Imm(2))),
      pc := w.pc + 2);
    DoVector(VAddLshl, r.tmp1, V(r.tmp1), V(r.tid), Imm(2), w1, sched[1]);
    Through2(LinearOffset(r, groupSize), w, sched);
    SmallWords();
    forall l | 0 <= l < 64 && w.exec[l]
      ensures VReg(w2.vgpr, r.tmp1, l) ==
        Bytes(SReg(w.sgpr, r.gid), Pow2(Log2Of(groupSize)), VReg(w.vgpr, r.tid, l)) % TWO32
    {
      OffsetOf(SReg(w.sgpr, r.gid), VReg(w.vgpr, r.tid, l), groupSize);
    }
  }

  lemma SmallWords()
    ensures ToWord(2) == 2 && ToWord(0) == 0
  {
  }

  lemma LinearDoes(r: LinearRegs, groupSize: int, w: Wave, sched: seq<Mem>)
    requires LinearApart(r) && groupSize < 0x2000_0000 && |sched| >= 5
    ensures AfterLinear(r, groupSize, w, Through(LinearCode(r, groupSize), w, sched, 5))
  {
    hide LinearOffset, AddToBase, Exec, Through, Bytes, Log2Of, Pow2;
    var a, b := LinearOffset(r, groupSize), AddToBase(r.addr, r.base, r.tmp1, r.tmp2);
    BlockLengths(r, groupSize);
    ThroughBoth(a, b, w, sched);
    OffsetDoes(r, groupSize, w, sched);
    var w1 := Through(a, w, sched, 2);
    AddToBaseDoes(r.addr, r.base, r.tmp1, r.tmp2, w1, sched[2..]);
  }

  lemma BlockLengths(r: LinearRegs, groupSize: int)
    ensures |LinearOffset(r, groupSize)| == 2 && |AddToBase(r.addr, r.base, r.tmp1, r.tmp2)| == 3
  {
  }

  /** The emitted address is base + 4 (gid groupSize + tid) exactly when that offset fits in 32 bits and
      the group size is a power of two; in group 0 its value does not matter. */
  lemma {:induction false} LinearAddress(r: LinearRegs, groupSize: int, w: Wave, sched: seq<Mem>, l: nat)
    requires LinearApart(r) && 1 <= groupSize < 0x2000_0000 && |sched| >= 5 && l < 64 && w.exec[l]
    ensures var w' := Through(LinearCode(r, groupSize), w, sched, 5);
      var gid, tid := SReg(w.sgpr, r.gid), VReg(w.vgpr, r.tid, l);
      w'.Lane64(r.addr, l) == (w.Scalar64(r.base) + Bytes(gid, groupSize, tid)) % TWO64 <==>
      Bytes(gid, groupSize, tid) < TWO32 && (gid == 0 || IsPower(groupSize))
  {
    hide LinearCode, Exec, Through, Bytes, Log2Of, Pow2, Wave.Scalar64, Wave.Lane64, IsPower;
    LinearDoes(r, groupSize, w, sched);
    OffsetRight(w.Scalar64(r.base), SReg(w.sgpr, r.gid), groupSize, VReg(w.vgpr, r.tid, l));
  }

  lemma {:induction false} OffsetRight(base: nat, gid: Word, groupSize: nat, tid: Word)
    requires 1 <= groupSize < 0x2000_0000
    ensures
      (base + Bytes(gid, Pow2(Log2Of(groupSize)), tid) % TWO32) % TWO64 ==
      (base + Bytes(gid, groupSize, tid)) % TWO64 <==>
      Bytes(gid, groupSize, tid) < TWO32 && (gid == 0 || IsPower(groupSize))
  {
    hide Bytes, Log2Of, Pow2, IsPower;
    var want, have := Bytes(gid, groupSize, tid), Bytes(gid, Pow2(Log2Of(groupSize)), tid);
    BytesOrder(gid, groupSize, tid);
    SameSum(base, want, have % TWO32);
    PowerIsLog2(groupSize);
  }

  ghost predicate IsPower(n: int) {
    exists k: nat :: n == Pow2(k)
  }

  lemma PowerIsLog2(n: int)
    requires n >= 1
    ensures IsPower(n) <==> n == Pow2(Log2Of(n))
  {
    if k: nat :| n == Pow2(k) { Log2OfPow2(k); }
  }

  lemma {:induction false} BytesOrder(gid: Word, groupSize: int, tid: Word)
    requires 1 <= groupSize < 0x2000_0000
    ensures var p := Pow2(Log2Of(groupSize));
      && Bytes(gid, p, tid) <= Bytes(gid, groupSize, tid) < TWO64
      && (Bytes(gid, p, tid) == Bytes(gid, groupSize, tid) <==> gid == 0 || groupSize == p)
  {
    var p := Pow2(Log2Of(groupSize));
    Log2Bounds(groupSize);
    hide Pow2, Log2Of;
    Products(gid, p, groupSize);
    Products(groupSize, gid, TWO32 - 1);
  }

  lemma Products(g: nat, p: nat, q: nat)
    requires p <= q
    ensures g * p <= g * q && (g * p == g * q <==> g == 0 || p == q)
  {
    assert g * q == g * p + g * (q - p);
  }

  /** Two offsets below 2^64 give the same address only when they are the same. */
  lemma SameSum(base: nat, x: nat, y: nat)
    requires x < TWO64 && y < TWO64
    ensures (base + x) % TWO64 == (base + y) % TWO64 <==> x == y
  {
    ModSum(base, x);
    ModSum(base, y);
  }

  /** Distinct threads get distinct addresses. */
  lemma {:induction false} LinearDistinct(base: nat, groupSize: nat, gid: nat, tid: nat, gid': nat, tid': nat)
    requires tid < groupSize && tid' < groupSize
    requires Bytes(gid, groupSize, tid) < TWO64 && Bytes(gid', groupSize, tid') < TWO64
    ensures (base + Bytes(gid, groupSize, tid)) % TWO64 == (base + Bytes(gid', groupSize, tid')) % TWO64 <==>
      gid == gid' && tid == tid'
  {
    SameSum(base, Bytes(gid, groupSize, tid), Bytes(gid', groupSize, tid'));
    if gid < gid' { MulOrder(groupSize, gid, gid'); }
    if gid' < gid { MulOrder(groupSize, gid', gid); }
  }

  /** Two threads, of one wave or of two, get the same address from the emitted code exactly when they are
      the same thread of the same group. */
  lemma {:induction false} LinearAddressesDistinct(r: LinearRegs, groupSize: int, w: Wave, sched: seq<Mem>, l: nat,
                                                   w': Wave, sched': seq<Mem>, l': nat)
    requires LinearApart(r) && 1 <= groupSize < 0x2000_0000 && IsPower(groupSize) &&
      w.Scalar64(r.base) == w'.Scalar64(r.base)
    requires |sched| >= 5 && l < 64 && w.exec[l] && VReg(w.vgpr, r.tid, l) < groupSize
    requires |sched'| >= 5 && l' < 64 && w'.exec[l'] && VReg(w'.vgpr, r.tid, l') < groupSize
    requires Bytes(SReg(w.sgpr, r.gid), groupSize, VReg(w.vgpr, r.tid, l)) < TWO32
    requires Bytes(SReg(w'.sgpr, r.gid), groupSize, VReg(w'.vgpr, r.tid, l')) < TWO32
    ensures Through(LinearCode(r, groupSize), w, sched, 5).Lane64(r.addr, l) ==
            Through(LinearCode(r, groupSize), w', sched', 5).Lane64(r.addr, l') <==>
      SReg(w.sgpr, r.gid) == SReg(w'.sgpr, r.gid) && VReg(w.vgpr, r.tid, l) == VReg(w'.vgpr, r.tid, l')
  {
    hide LinearCode, Through, Bytes, IsPower, Wave.Scalar64, Wave.Lane64;
    LinearAddress(r, groupSize, w, sched, l);
    LinearAddress(r, groupSize, w', sched', l');
    LinearDistinct(w.Scalar64(r.base), groupSize, SReg(w.sgpr, r.gid), VReg(w.vgpr, r.tid, l),
                   SReg(w'.sgpr, r.gid), VReg(w'.vgpr, r.tid, l'));
  }
}

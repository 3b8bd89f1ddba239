/** The code a worker wave runs on its slot, and the step of the shared memory each part of it is. */
module Worker {
  import opened Words
  import opened Isa
  import opened Address
  import opened Signals

  const CU_NUM := 64

  /** Registers and arguments of f_init_signal_slot. */
  datatype InitRegs = InitRegs(tmp1: nat, tmp2: nat, sTmp: nat, waveId: nat, sigIdx: nat, slot: nat, gid: nat,
                               addr: nat,
                               end: string, waveOffset: nat, signalOffset: nat)

  ghost predicate InitApart(r: InitRegs) {
    && r.tmp1 !in {r.tmp2, r.addr, r.addr + 1} && r.tmp2 !in {r.addr, r.addr + 1}
    && r.sigIdx !in {r.slot, r.slot + 1} && r.waveId !in {r.slot, r.slot + 1, r.gid}
    && r.sTmp !in {r.slot, r.slot + 1, r.waveId}
  }

  /** A wave of the first CU_NUM groups writes 0 to the first word. */
  function InitReset(r: InitRegs): seq<Instr> {
    [SAlu(SLshr, r.waveId, S(r.gid), Imm(Log2Of(CU_NUM))),
     SCmpEq(S(r.waveId), Imm(0)),
     BranchIf(false, r.end),
     SMov(S(r.sTmp), Imm(0)),
     SStore(r.sTmp, r.slot, 0),
     Label(r.end)]
  }

  /** The delay that is to let the reset finish. */
  function InitDelay(): seq<Instr> {
    [Pause, Pause]
  }

  /** Register: add 1 to the counter; what it was is the number of the slot. */
  function InitRegister(r: InitRegs): seq<Instr> {
    CounterCode(false, r.sigIdx, r.slot, 4 * r.waveOffset)
  }

  /** Add 1 to the counter or take 1 away; the register receives what was there. */
  function CounterCode(sub: bool, d: nat, slot: nat, offset: nat): seq<Instr> {
    [SMov(S(d), Imm(1)), SAtomic(sub, d, slot, offset), Pause]
  }

  function InitAddress(r: InitRegs): seq<Instr> {
    [VAlu(VLshlRev, r.tmp2, Imm(2), S(r.sigIdx), NONE)] + AddToBase(r.addr, r.slot, r.tmp2, r.tmp1)
  }

  /** Clear the slot. */
  function InitClear(r: InitRegs): seq<Instr> {
    [VAlu(VMov, r.tmp1, Imm(0), NONE, NONE), FlatStore(r.addr, r.tmp1, 4 * r.signalOffset), Pause]
  }

  function InitCode(r: InitRegs): seq<Instr> {
    InitReset(r) + InitDelay() + InitRegister(r) + InitAddress(r) + InitClear(r)
  }

  function SendCode(addr: nat, signal: nat, signalOffset: nat): seq<Instr> {
    [FlatStore(addr, signal, 4 * signalOffset), Pause]
  }

  function DeinitCode(tmp: nat, slot: nat, waveOffset: nat): seq<Instr> {
    CounterCode(true, tmp, slot, 4 * waveOffset)
  }

  // ---------------------------------------------------------------------------------------------
  // The reset
  // ---------------------------------------------------------------------------------------------

  lemma GroupShift(gid: Word)
    ensures Log2Of(CU_NUM) == 6 && (Shr(gid, 6) == 0 <==> gid < CU_NUM)
  {
    Log2OfPow2(6);
    assert Pow2(6) == 64;
    HalvePow2(gid, 6);
  }

  function WaveOf(r: InitRegs, w: Wave): Wave {
    var v := Shr(SReg(w.sgpr, r.gid), ToWord(Log2Of(CU_NUM)));
    w.WithScalar(r.waveId, v).(scc := v == 0, pc := w.pc + 2)
  }

  lemma WaveIdDoes(r: InitRegs, w: Wave, sched: seq<Mem>)
    requires |sched| >= 2
    ensures Through(InitReset(r)[..2], w, sched, 2) == WaveOf(r, w)
  {
    hide Through, Exec, LowWord, HighWord, Shr, Log2Of;
    var v := Shr(SReg(w.sgpr, r.gid), ToWord(Log2Of(CU_NUM)));
    DoShift(r.waveId, S(r.gid), Imm(Log2Of(CU_NUM)), w, sched[0]);
    DoCmpEq(S(r.waveId), Imm(0), w.WithScalar(r.waveId, v).(scc := v != 0, pc := w.pc + 1), sched[1]);
    Through2(InitReset(r)[..2], w, sched);
  }

  /** Waves of the first 64 groups reach the store, others skip it. */
  lemma ResetBranch(code: seq<Instr>, q: nat, r: InitRegs, w: Wave, sched: seq<Mem>)
    requires At(code, q, InitReset(r)) && Target(code, r.end) == q + 5 && w.pc == q && |sched| >= 3 && InitApart(r)
    ensures var w' := Run(code, w, sched, 3);
      w'.pc == (if SReg(w.sgpr, r.gid) < CU_NUM then q + 3 else q + 5) && w'.Scalar64(r.slot) == w.Scalar64(r.slot)
  {
    hide Through, Target, Exec, Run, Shr, Log2Of;
    var b := InitReset(r)[..2];
    assert At(code, q, b) && code[q + 2] == InitReset(r)[2];
    RunStraight(code, q, b, w, sched, 2);
    WaveIdDoes(r, w, sched);
    GroupShift(SReg(w.sgpr, r.gid));
    RunStep(code, w, sched, 2);
  }

  /** The store hits the wave counter exactly when the counter is the first word. */
  lemma ResetHitsCounter(y: Layout)
    requires 4 * y.waveOffset < TWO64
    ensures Effective(y.base, 0) == CounterAt(y) <==> y.waveOffset == 0
  {
    ModSum(y.base, 4 * y.waveOffset);
  }

  /** The store itself: the counter word becomes 0, and with it the state is that of an empty system. */
  lemma ResetStores(code: seq<Instr>, q: nat, r: InitRegs, y: Layout, w: Wave, sched: seq<Mem>, m: Mem)
    requires At(code, q, InitReset(r)) && w.pc == q + 3 && |sched| >= 1 && InitApart(r) && w.Scalar64(r.slot) == y.base
    requires 4 * y.waveOffset < TWO64
    ensures var m' := Step(code, Run(code, w, sched, 1), m).1;
      && m' == m[Effective(y.base, 0) := 0]
      && (y.waveOffset == 0 ==> Initial(y, Sys(m', map[], {})))
      && (y.waveOffset != 0 ==> ReadMem(m', CounterAt(y)) == ReadMem(m, CounterAt(y)))
  {
    hide Target, Exec, Run, Step, Effective, CounterAt, Log2Of;
    StepAt(code, q, InitReset(r), 3, w, sched[0]);
    DoMov(r.sTmp, Imm(0), w, sched[0]);
    RunStep(code, w, sched, 0);
    var w1 := WithRegister(r.sTmp, 0, w);
    assert Run(code, w, sched, 1) == w1;
    StepAt(code, q, InitReset(r), 4, w1, m);
    DoStore(r.sTmp, r.slot, 0, w1, m);
    PutKeeps(r.sTmp, 0, r.slot, w);
    ResetHitsCounter(y);
  }

  function WithRegister(d: nat, v: Word, w: Wave): (r: Wave)
    ensures r.pc == w.pc + 1 && r == w.(sgpr := r.sgpr, pc := r.pc)
    ensures SReg(r.sgpr, d) == v && forall x: nat :: x != d ==> SReg(r.sgpr, x) == SReg(w.sgpr, x)
  {
    w.WithScalar(d, v).(pc := w.pc + 1)
  }

  lemma PutKeeps(d: nat, v: Word, pair: nat, w: Wave)
    requires d !in {pair, pair + 1}
    ensures WithRegister(d, v, w).Scalar64(pair) == w.Scalar64(pair)
  {
    hide WithRegister;
  }

  // ---------------------------------------------------------------------------------------------
  // Counter steps
  // ---------------------------------------------------------------------------------------------

  /** Of the three instructions one touches memory: it adds or subtracts 1 and returns what was there. */
  lemma CounterStep(code: seq<Instr>, q: nat, sub: bool, d: nat, slot: nat, offset: nat, w: Wave, sched: seq<Mem>)
    requires At(code, q, CounterCode(sub, d, slot, offset)) && w.pc == q && |sched| >= 3 && d !in {slot, slot + 1}
    ensures var a := Effective(w.Scalar64(slot), offset);
      var was := ReadMem(sched[1], a);
      var w1, w2 := WithRegister(d, 1, w), WithRegister(d, was, WithRegister(d, 1, w));
      && Step(code, w, sched[0]) == (w1, sched[0])
      && Step(code, w1, sched[1]) == (w2, sched[1][a := ToWord(if sub then was - 1 else was + 1)])
      && Step(code, w2, sched[2]) == (w2.(pc := q + 3), sched[2])
  {
    hide Target, Exec, Step, Effective, ToWord, WithRegister, Wave.Scalar64;
    var b := CounterCode(sub, d, slot, offset);
    StepAt(code, q, b, 0, w, sched[0]);
    MovOne(d, w, sched[0]);
    var w1 := WithRegister(d, 1, w);
    StepAt(code, q, b, 1, w1, sched[1]);
    AtomicIs(sub, d, slot, offset, w1, sched[1]);
    PutKeeps(d, 1, slot, w);
    var w2 := WithRegister(d, ReadMem(sched[1], Effective(w.Scalar64(slot), offset)), w1);
    StepAt(code, q, b, 2, w2, sched[2]);
    DoPause(w2, sched[2]);
  }

  lemma MovOne(d: nat, w: Wave, m: Mem)
    ensures Exec(SMov(S(d), Imm(1)), w, m) == (WithRegister(d, 1, w), m)
  {
    hide Exec;
    DoMov(d, Imm(1), w, m);
  }

  lemma AtomicIs(sub: bool, d: nat, slot: nat, offset: nat, w: Wave, m: Mem)
    requires SReg(w.sgpr, d) == 1
    ensures var a := Effective(w.Scalar64(slot), offset);
      var was := ReadMem(m, a);
      Exec(SAtomic(sub, d, slot, offset), w, m) ==
        (WithRegister(d, was, w), m[a := ToWord(if sub then was - 1 else was + 1)])
  {
    hide Exec, Effective, ToWord;
    DoAtomic(sub, d, slot, offset, w, m);
  }

  /** Registering: the atomic add is the step Register of the shared memory, and the register ends with
      the number of the slot. */
  lemma {:induction false} RegisterStep(y: Layout, s: Sys, id: nat, code: seq<Instr>, q: nat, d: nat, slot: nat,
                                        w: Wave, sched: seq<Mem>)
    requires At(code, q, CounterCode(false, d, slot, 4 * y.waveOffset)) && w.pc == q && |sched| >= 3 &&
      d !in {slot, slot + 1}
    requires w.Scalar64(slot) == y.base && sched[1] == s.mem && Enabled(s, Register(id))
    ensures var w' := Run(code, w, sched, 3);
      && Step(code, Run(code, w, sched, 1), sched[1]).1 == Apply(y, s, Register(id)).mem
      && Apply(y, s, Register(id)).waves[id] == Waiting(SReg(w'.sgpr, d))
      && w' == w.(sgpr := w'.sgpr, pc := q + 3) && forall x: nat :: x != d ==> SReg(w'.sgpr, x) == SReg(w.sgpr, x)
    ensures Step(code, w, sched[0]).1 == sched[0] && Step(code, Run(code, w, sched, 2), sched[2]).1 == sched[2]
  {
    hide Target, Exec, Run, Step, Effective, ToWord, At;
    CounterStep(code, q, false, d, slot, 4 * y.waveOffset, w, sched);
    RunStep(code, w, sched, 0);
    RunStep(code, w, sched, 1);
    RunStep(code, w, sched, 2);
  }

  /** Retiring: the atomic subtract is the step Retire. */
  lemma RetireStep(y: Layout, s: Sys, id: nat, code: seq<Instr>, q: nat, d: nat, slot: nat, w: Wave, sched: seq<Mem>)
    requires At(code, q, DeinitCode(d, slot, y.waveOffset)) && w.pc == q && |sched| >= 3 && d !in {slot, slot + 1}
    requires w.Scalar64(slot) == y.base && sched[1] == s.mem && Enabled(s, Retire(id))
    ensures Step(code, Run(code, w, sched, 1), sched[1]).1 == Apply(y, s, Retire(id)).mem
    ensures Step(code, w, sched[0]).1 == sched[0] && Step(code, Run(code, w, sched, 2), sched[2]).1 == sched[2]
  {
    hide Target, Exec, Run, Step, Effective, ToWord, At;
    CounterStep(code, q, true, d, slot, 4 * y.waveOffset, w, sched);
    RunStep(code, w, sched, 0);
    RunStep(code, w, sched, 1);
  }

  // ---------------------------------------------------------------------------------------------
  // Slot steps
  // ---------------------------------------------------------------------------------------------

  ghost predicate SomeLane(m: Mask, from: nat) {
    exists l :: from <= l < 64 && m[l]
  }

  /** Every active lane addresses the same slot. */
  ghost predicate OnSlot(w: Wave, addr: nat, y: Layout, k: nat) {
    forall l :: 0 <= l < 64 && w.exec[l] ==> w.Lane64(addr, l) == (y.base + 4 * k) % TWO64
  }

  ghost predicate LanesHold(w: Wave, s: nat, x: Word) {
    forall l :: 0 <= l < 64 && w.exec[l] ==> VReg(w.vgpr, s, l) == x
  }

  /** What the last active lane from l on holds in a register. */
  ghost function LastWord(w: Wave, v: nat, l: nat): Word
    requires l <= 64
    decreases 64 - l
  {
    if l == 64 then 0 else if SomeLane(w.exec, l + 1) then LastWord(w, v, l + 1) else VReg(w.vgpr, v, l)
  }

  lemma {:induction false} LastWordIsALane(w: Wave, v: nat, l: nat)
    requires l <= 64 && SomeLane(w.exec, l)
    ensures exists j :: l <= j < 64 && w.exec[j] && LastWord(w, v, l) == VReg(w.vgpr, v, j)
    decreases 64 - l
  {
    if l < 64 && SomeLane(w.exec, l + 1) { LastWordIsALane(w, v, l + 1); }
  }

  /** Lanes that store at the same address leave the word of one of them. */
  lemma {:induction false} OneStore(w: Wave, m: Mem, addr: nat, v: nat, y: Layout, k: nat, l: nat)
    requires l <= 64 && OnSlot(w, addr, y, k)
    ensures StoreLanes(w, m, addr, v, 4 * y.signalOffset, l) ==
      if SomeLane(w.exec, l) then m[SlotAt(y, k) := LastWord(w, v, l)] else m
    decreases 64 - l
  {
    hide Effective, Wave.Lane64;
    if l < 64 {
      OneStore(w, if w.exec[l] then m[SlotAt(y, k) := w.Lane(v, l)] else m, addr, v, y, k, l + 1);
      assert w.exec[l] ==> SomeLane(w.exec, l);
      assert SomeLane(w.exec, l + 1) ==> SomeLane(w.exec, l);
      assert SomeLane(w.exec, l) ==> w.exec[l] || SomeLane(w.exec, l + 1);
    }
  }

  /** Sending: the store is the step Send of a word that an active lane holds. */
  lemma SendStep(y: Layout, s: Sys, id: nat, code: seq<Instr>, q: nat, addr: nat, signal: nat, w: Wave)
    requires At(code, q, SendCode(addr, signal, y.signalOffset)) && w.pc == q && SomeLane(w.exec, 0)
    requires id in s.waves && s.waves[id].Sending? && OnSlot(w, addr, y, s.waves[id].slot)
    ensures Step(code, w, s.mem) == (w.(pc := q + 1), Apply(y, s, Send(id, LastWord(w, signal, 0))).mem)
    ensures exists l :: 0 <= l < 64 && w.exec[l] && LastWord(w, signal, 0) == VReg(w.vgpr, signal, l)
  {
    hide Target, Exec, Step, SlotAt, StoreLanes, At, OnSlot, SomeLane, LastWord;
    StepAt(code, q, SendCode(addr, signal, y.signalOffset), 0, w, s.mem);
    DoFlatStore(addr, signal, 4 * y.signalOffset, w, s.mem);
    OneStore(w, s.mem, addr, signal, y, s.waves[id].slot, 0);
    LastWordIsALane(w, signal, 0);
  }

  ghost predicate ClearedAddress(r: InitRegs, w: Wave, w': Wave) {
    && w' == w.(vgpr := w'.vgpr, pc := w.pc + 1)
    && LanesHold(w', r.tmp1, 0)
    && forall v: nat, l :: v != r.tmp1 && 0 <= l < 64 ==> VReg(w'.vgpr, v, l) == VReg(w.vgpr, v, l)
  }

  lemma ZeroDoes(r: InitRegs, w: Wave, m: Mem)
    ensures ClearedAddress(r, w, Exec(InitClear(r)[0], w, m).0) && Exec(InitClear(r)[0], w, m).1 == m
  {
    hide Exec, SetLanes, VectorLanes, LowWord, HighWord;
    DoVector(VMov, r.tmp1, Imm(0), NONE, NONE, w, m);
  }

  /** Clearing: the store of 0 is the step Clear. */
  lemma {:induction false} ClearStep(y: Layout, s: Sys, id: nat, code: seq<Instr>, q: nat, r: InitRegs, w: Wave,
                                     sched: seq<Mem>)
    requires At(code, q, InitClear(r)) && w.pc == q && |sched| >= 3 && InitApart(r) && SomeLane(w.exec, 0)
    requires Enabled(s, Clear(id)) && OnSlot(w, r.addr, y, s.waves[id].slot) && r.signalOffset == y.signalOffset
    requires sched[1] == s.mem
    ensures Step(code, Run(code, w, sched, 1), sched[1]).1 == Apply(y, s, Clear(id)).mem
    ensures Step(code, w, sched[0]).1 == sched[0] && Step(code, Run(code, w, sched, 2), sched[2]).1 == sched[2]
    ensures Run(code, w, sched, 3).pc == q + 3 && OnSlot(Run(code, w, sched, 3), r.addr, y, s.waves[id].slot)
    ensures Run(code, w, sched, 3).exec == w.exec
  {
    hide Target, Exec, Step, Run, SlotAt, StoreLanes, At, SomeLane, LastWord;
    var b := InitClear(r);
    RunStep(code, w, sched, 0);
    RunStep(code, w, sched, 1);
    RunStep(code, w, sched, 2);
    StepAt(code, q, b, 0, w, sched[0]);
    ZeroDoes(r, w, sched[0]);
    var w1 := Run(code, w, sched, 1);
    assert OnSlot(w1, r.addr, y, s.waves[id].slot);
    StepAt(code, q, b, 1, w1, sched[1]);
    DoFlatStore(r.addr, r.tmp1, 4 * r.signalOffset, w1, sched[1]);
    OneStore(w1, sched[1], r.addr, r.tmp1, y, s.waves[id].slot, 0);
    LastWordIsALane(w1, r.tmp1, 0);
    var w2 := Run(code, w, sched, 2);
    StepAt(code, q, b, 2, w2, sched[2]);
    DoPause(w2, sched[2]);
  }

  // ---------------------------------------------------------------------------------------------
  // The whole registration
  // ---------------------------------------------------------------------------------------------

  predicate KeepsMemory(i: Instr) {
    !i.SStore? && !i.SAtomic? && !i.FlatStore?
  }

  lemma QuietExec(i: Instr, w: Wave, m: Mem)
    requires KeepsMemory(i)
    ensures Exec(i, w, m).1 == m
  {
  }

  lemma {:induction false} QuietRun(code: seq<Instr>, q: nat, b: seq<Instr>, w: Wave, sched: seq<Mem>, k: nat)
    requires At(code, q, b) && Straight(b) && w.pc == q && k < |b| && k < |sched| && KeepsMemory(b[k])
    ensures Step(code, Run(code, w, sched, k), sched[k]).1 == sched[k]
  {
    hide Exec, Step, Run, Through, At;
    RunStraight(code, q, b, w, sched, k);
    StepAt(code, q, b, k, Run(code, w, sched, k), sched[k]);
    QuietExec(b[k], Run(code, w, sched, k), sched[k]);
  }

  ghost predicate AfterScale(r: InitRegs, k: nat, w: Wave, w': Wave) {
    && w' == w.(vgpr := w'.vgpr, pc := w.pc + 1)
    && forall l :: 0 <= l < 64 && w.exec[l] ==> VReg(w'.vgpr, r.tmp2, l) == 4 * k
  }

  lemma ScaleDoes(r: InitRegs, k: nat, w: Wave, m: Mem)
    requires SReg(w.sgpr, r.sigIdx) == k < SLOTS
    ensures AfterScale(r, k, w, Exec(InitAddress(r)[0], w, m).0)
  {
    hide Exec, SetLanes, VectorLanes, LowWord, HighWord, Shl;
    DoVector(VLshlRev, r.tmp2, Imm(2), S(r.sigIdx), NONE, w, m);
    ShlBy2(k);
  }

  /** The slot number becomes the address of the slot, in every active lane. */
  lemma AddressStep(y: Layout, k: nat, code: seq<Instr>, q: nat, r: InitRegs, w: Wave, sched: seq<Mem>)
    requires At(code, q, InitAddress(r)) && w.pc == q && |sched| >= 4 && InitApart(r)
    requires SReg(w.sgpr, r.sigIdx) == k < SLOTS && w.Scalar64(r.slot) == y.base
    ensures var w' := Run(code, w, sched, 4);
      w' == w.(vgpr := w'.vgpr, vcc := w'.vcc, pc := q + 4) && OnSlot(w', r.addr, y, k)
  {
    hide Exec, Run, Through, At, AddToBase, AfterScale, AddedToBase, OnSlot, Wave.Scalar64;
    var b := AddToBase(r.addr, r.slot, r.tmp2, r.tmp1);
    assert |b| == 3 by { ThreeLong(r); }
    PartAt(code, q, InitAddress(r), 0, 1);
    PartAt(code, q, InitAddress(r), 1, 4);
    assert InitAddress(r)[1..4] == b;
    RunStraight(code, q, InitAddress(r)[0..1], w, sched, 1);
    Through1(InitAddress(r)[0..1], w, sched);
    ScaleDoes(r, k, w, sched[0]);
    var w1 := Run(code, w, sched, 1);
    assert w1.pc == q + 1;
    assert Straight(b) by { Branchless(r); }
    RunStraight(code, q + 1, b, w1, sched[1..], 3);
    AddToBaseDoes(r.addr, r.slot, r.tmp2, r.tmp1, w1, sched[1..]);
    RunOn(code, w, sched, 1, 3);
    LanesOnSlot(y, r, k, w, w1, Run(code, w, sched, 4));
  }

  lemma LanesOnSlot(y: Layout, r: InitRegs, k: nat, w: Wave, w1: Wave, w': Wave)
    requires AfterScale(r, k, w, w1) && AddedToBase(r.addr, r.slot, r.tmp2, r.tmp1, w1, w') &&
      w.Scalar64(r.slot) == y.base
    ensures OnSlot(w', r.addr, y, k) && w' == w.(vgpr := w'.vgpr, vcc := w'.vcc, pc := w.pc + 4)
  {
    hide Wave.Lane64, Wave.Scalar64;
    SameScalars(w, w1, r.slot);
  }

  lemma ThreeLong(r: InitRegs)
    ensures |AddToBase(r.addr, r.slot, r.tmp2, r.tmp1)| == 3
  {
  }

  lemma Branchless(r: InitRegs)
    ensures Straight(AddToBase(r.addr, r.slot, r.tmp2, r.tmp1))
  {
  }

  lemma SameScalars(w: Wave, w': Wave, d: nat)
    requires w'.sgpr == w.sgpr
    ensures w'.Scalar64(d) == w.Scalar64(d)
  {
  }

  function Registration(r: InitRegs): seq<Instr> {
    InitRegister(r) + InitAddress(r) + InitClear(r)
  }

  lemma RegistrationShape(r: InitRegs)
    ensures |Registration(r)| == 10 && Straight(Registration(r))
    ensures forall k :: 0 <= k < 10 && k != 1 && k != 8 ==> KeepsMemory(Registration(r)[k])
    ensures Registration(r)[0..3] == InitRegister(r) && Registration(r)[3..7] == InitAddress(r)
    ensures Registration(r)[7..10] == InitClear(r)
  {
  }

  /** The emitted registration, whatever other waves do in between: its second instruction is the step
      Register, its ninth the step Clear, no other touches memory, and in the end every active lane
      addresses the slot the counter gave out. s1 and s2 are the states the two steps meet. */
  lemma {:induction false} WorkerRegisters(y: Layout, s1: Sys, s2: Sys, id: nat, code: seq<Instr>, q: nat,
                                        r: InitRegs, w: Wave, sched: seq<Mem>)
    requires At(code, q, Registration(r)) && w.pc == q && |sched| >= 10 && InitApart(r) && SomeLane(w.exec, 0)
    requires w.Scalar64(r.slot) == y.base && r.waveOffset == y.waveOffset && r.signalOffset == y.signalOffset
    requires Enabled(s1, Register(id)) && Count(y, s1) < SLOTS && sched[1] == s1.mem
    requires Enabled(s2, Clear(id)) && s2.waves[id].slot == Count(y, s1) && sched[8] == s2.mem
    ensures Step(code, Run(code, w, sched, 1), sched[1]).1 == Apply(y, s1, Register(id)).mem
    ensures Step(code, Run(code, w, sched, 8), sched[8]).1 == Apply(y, s2, Clear(id)).mem
    ensures forall k :: 0 <= k < 10 && k != 1 && k != 8 ==> Step(code, Run(code, w, sched, k), sched[k]).1 == sched[k]
    ensures OnSlot(Run(code, w, sched, 10), r.addr, y, Count(y, s1)) && Run(code, w, sched, 10).exec == w.exec
  {
    hide At, Run, Step, Registration, InitRegister, InitAddress, InitClear, OnSlot, SomeLane, Wave.Scalar64, Straight,
         KeepsMemory, SlotAt, CounterAt;
    RegistrationShape(r);
    forall k | 0 <= k < 10 && k != 1 && k != 8 ensures Step(code, Run(code, w, sched, k), sched[k]).1 == sched[k] {
      QuietRun(code, q, Registration(r), w, sched, k);
    }
    PartAt(code, q, Registration(r), 0, 3);
    PartAt(code, q, Registration(r), 3, 7);
    PartAt(code, q, Registration(r), 7, 10);
    assert InitRegister(r) == CounterCode(false, r.sigIdx, r.slot, 4 * y.waveOffset) by { RegisterIs(r); }
    RegisterStep(y, s1, id, code, q, r.sigIdx, r.slot, w, sched);
    var w3 := Run(code, w, sched, 3);
    assert w3.Scalar64(r.slot) == y.base by { OtherPair(r.sigIdx, r.slot, w, w3); }
    AddressStep(y, Count(y, s1), code, q + 3, r, w3, sched[3..]);
    RunOn(code, w, sched, 3, 4);
    var w7 := Run(code, w, sched, 7);
    ClearStep(y, s2, id, code, q + 7, r, w7, sched[7..]);
    RunOn(code, w, sched, 7, 1);
    RunOn(code, w, sched, 7, 3);
  }

  lemma RegisterIs(r: InitRegs)
    ensures InitRegister(r) == CounterCode(false, r.sigIdx, r.slot, 4 * r.waveOffset)
  {
  }

  lemma OtherPair(d: nat, pair: nat, w: Wave, w': Wave)
    requires d !in {pair, pair + 1} && forall x: nat :: x != d ==> SReg(w'.sgpr, x) == SReg(w.sgpr, x)
    ensures w'.Scalar64(pair) == w.Scalar64(pair)
  {
  }

  // ---------------------------------------------------------------------------------------------
  // From the first line of f_init_signal_slot
  // ---------------------------------------------------------------------------------------------

  lemma InitShape(r: InitRegs)
    ensures InitCode(r) == InitReset(r) + (InitDelay() + Registration(r))
    ensures |InitReset(r)| == 6 && |InitDelay()| == 2 && |Registration(r)| == 10
  {
    hide Log2Of;
  }

  /** Where the parts stand, and where the reset branch leads when no earlier line carries its label. */
  lemma {:induction false} InitStands(code: seq<Instr>, q: nat, r: InitRegs)
    requires At(code, q, InitCode(r)) && forall i :: 0 <= i < q ==> code[i] != Label(r.end)
    ensures At(code, q, InitReset(r)) && At(code, q + 5, [Label(r.end), Pause, Pause])
    ensures At(code, q + 8, Registration(r)) && Target(code, r.end) == q + 5
  {
    InitShape(r);
    var a, b, all := InitReset(r), InitDelay(), InitCode(r);
    ResetLines(r);
    hide InitReset, InitDelay, Registration, InitCode;
    assert |all| == 18;
    PartAt(code, q, all, 0, 6);
    PartAt(code, q, all, 5, 8);
    PartAt(code, q, all, 8, 18);
    assert all[0..6] == a && all[8..18] == Registration(r);
    assert all[5..8] == [a[5]] + b == [Label(r.end), Pause, Pause];
    forall i | 0 <= i < q + 5 ensures code[i] != Label(r.end) {
      if i >= q { assert code[q + (i - q)] == all[i - q] == a[i - q]; }
    }
    assert code[q + 5] == all[5] == a[5];
    LabelFound(code, r.end, q + 5);
  }

  lemma ResetLines(r: InitRegs)
    ensures forall i :: 0 <= i < 5 ==> !InitReset(r)[i].Label?
    ensures InitReset(r)[5] == Label(r.end) && InitDelay() == [Pause, Pause]
  {
    hide Log2Of;
  }

  /** How many steps a wave makes before it registers: the waves of the first 64 groups store. */
  function StepsBefore(r: InitRegs, w: Wave): nat {
    if SReg(w.sgpr, r.gid) < CU_NUM then 8 else 6
  }

  /** Label and delay change nothing. */
  lemma DelayRuns(code: seq<Instr>, p: nat, r: InitRegs, w: Wave, sched: seq<Mem>)
    requires At(code, p, [Label(r.end), Pause, Pause]) && w.pc == p && |sched| >= 3
    ensures Run(code, w, sched, 3) == w.(pc := p + 3)
    ensures forall k :: 0 <= k < 3 ==> Step(code, Run(code, w, sched, k), sched[k]).1 == sched[k]
  {
    hide Exec, Run, Through, Step, At;
    var b := [Label(r.end), Pause, Pause];
    RunStraight(code, p, b, w, sched, 3);
    Through3(b, w, sched);
    DoLabel(r.end, w, sched[0]);
    DoPause(w.(pc := p + 1), sched[1]);
    DoPause(w.(pc := p + 2), sched[2]);
    forall k | 0 <= k < 3 ensures Step(code, Run(code, w, sched, k), sched[k]).1 == sched[k] {
      QuietRun(code, p, b, w, sched, k);
    }
  }

  /** The first three instructions leave memory and lanes alone. */
  lemma {:induction false} BranchRuns(code: seq<Instr>, q: nat, r: InitRegs, w: Wave, sched: seq<Mem>)
    requires At(code, q, InitReset(r)) && Target(code, r.end) == q + 5 && w.pc == q && |sched| >= 3 && InitApart(r)
    ensures var w' := Run(code, w, sched, 3);
      w'.pc == (if SReg(w.sgpr, r.gid) < CU_NUM then q + 3 else q + 5) && w'.exec == w.exec
    ensures Run(code, w, sched, 3).Scalar64(r.slot) == w.Scalar64(r.slot)
    ensures forall k :: 0 <= k < 3 ==> Step(code, Run(code, w, sched, k), sched[k]).1 == sched[k]
  {
    hide Through, Target, Exec, Run, Shr, Log2Of, Wave.Scalar64, InitApart;
    ResetBranch(code, q, r, w, sched);
    var b := InitReset(r)[..2];
    assert At(code, q, b) && code[q + 2] == InitReset(r)[2];
    RunStraight(code, q, b, w, sched, 2);
    WaveIdDoes(r, w, sched);
    RunStep(code, w, sched, 2);
    QuietRun(code, q, b, w, sched, 0);
    QuietRun(code, q, b, w, sched, 1);
  }

  /** The store of the reset, as far as the wave goes. */
  lemma {:induction false} StoreRuns(code: seq<Instr>, q: nat, r: InitRegs, w: Wave, sched: seq<Mem>)
    requires At(code, q, InitReset(r)) && w.pc == q + 3 && |sched| >= 2 && InitApart(r)
    ensures var w' := Run(code, w, sched, 2);
      w'.pc == q + 5 && w'.exec == w.exec && w'.Scalar64(r.slot) == w.Scalar64(r.slot)
    ensures Step(code, w, sched[0]).1 == sched[0]
    ensures Step(code, Run(code, w, sched, 1), sched[1]).1 == sched[1][Effective(w.Scalar64(r.slot), 0) := 0]
  {
    hide Target, Exec, Run, Step, Effective, Log2Of;
    StepAt(code, q, InitReset(r), 3, w, sched[0]);
    DoMov(r.sTmp, Imm(0), w, sched[0]);
    RunStep(code, w, sched, 0);
    RunStep(code, w, sched, 1);
    var w1 := WithRegister(r.sTmp, 0, w);
    assert Run(code, w, sched, 1) == w1;
    StepAt(code, q, InitReset(r), 4, w1, sched[1]);
    DoStore(r.sTmp, r.slot, 0, w1, sched[1]);
    PutKeeps(r.sTmp, 0, r.slot, w);
  }

  /** What happens before the registration, on either side of the branch: the wave comes to it with the
      slot address and its lanes, and only waves of the first 64 groups touch memory, storing 0 at the slot
      address. */
  ghost predicate ReachesRegistration(code: seq<Instr>, q: nat, r: InitRegs, w: Wave, sched: seq<Mem>)
    requires |sched| >= StepsBefore(r, w)
  {
    var n := StepsBefore(r, w);
    var w' := Run(code, w, sched, n);
    && w'.pc == q + 8 && w'.exec == w.exec && w'.Scalar64(r.slot) == w.Scalar64(r.slot)
    && forall k :: 0 <= k < n ==>
      Step(code, Run(code, w, sched, k), sched[k]).1 ==
        if n == 8 && k == 4 then sched[k][Effective(w.Scalar64(r.slot), 0) := 0] else sched[k]
  }

  lemma {:induction false} ResetRuns(code: seq<Instr>, q: nat, r: InitRegs, w: Wave, sched: seq<Mem>)
    requires At(code, q, InitCode(r)) && forall i :: 0 <= i < q ==> code[i] != Label(r.end)
    requires w.pc == q && |sched| >= 8 && InitApart(r)
    ensures ReachesRegistration(code, q, r, w, sched)
  {
    hide At, InitCode, InitReset, Registration, Run, Step, Target, Wave.Scalar64, Effective, InitApart;
    InitStands(code, q, r);
    BranchRuns(code, q, r, w, sched);
    var w3 := Run(code, w, sched, 3);
    if SReg(w.sgpr, r.gid) < CU_NUM {
      StoreRuns(code, q, r, w3, sched[3..]);
      RunOn(code, w, sched, 3, 2);
      var w5 := Run(code, w, sched, 5);
      DelayRuns(code, q + 5, r, w5, sched[5..]);
      RunOn(code, w, sched, 5, 3);
      OtherPc(w5, q + 8, r.slot);
      StartsHere(code, w3, sched[3..]);
      SameStep(code, w, sched, 3, 0);
      SameStep(code, w, sched, 3, 1);
      SameStep(code, w, sched, 5, 0);
      SameStep(code, w, sched, 5, 1);
      SameStep(code, w, sched, 5, 2);
    } else {
      DelayRuns(code, q + 5, r, w3, sched[3..]);
      RunOn(code, w, sched, 3, 3);
      OtherPc(w3, q + 8, r.slot);
      SameStep(code, w, sched, 3, 0);
      SameStep(code, w, sched, 3, 1);
      SameStep(code, w, sched, 3, 2);
    }
  }

  lemma SameStep(code: seq<Instr>, w: Wave, sched: seq<Mem>, a: nat, k: nat)
    requires a + k < |sched|
    ensures Step(code, Run(code, w, sched, a + k), sched[a + k]) ==
      Step(code, Run(code, Run(code, w, sched, a), sched[a..], k), sched[a..][k])
  {
    hide Step, Run;
    RunOn(code, w, sched, a, k);
  }

  lemma StartsHere(code: seq<Instr>, w: Wave, sched: seq<Mem>)
    ensures Run(code, w, sched, 0) == w
  {
  }

  lemma OtherPc(w: Wave, pc: nat, d: nat)
    ensures w.(pc := pc).Scalar64(d) == w.Scalar64(d)
  {
  }

  /** A wave that enters the block at its first line reaches its end, whichever side of the branch it
      takes. Its atomic is the step Register, its store at the end the step Clear, of the two system states
      they meet; nothing else behind the reset touches memory; and every active lane ends with the address
      of the slot whose number the atomic found. */
  lemma {:induction false} InitRuns(y: Layout, s1: Sys, s2: Sys, id: nat, code: seq<Instr>, q: nat, r: InitRegs,
                                    w: Wave, sched: seq<Mem>)
    requires At(code, q, InitCode(r)) && forall i :: 0 <= i < q ==> code[i] != Label(r.end)
    requires w.pc == q && |sched| >= 18 && InitApart(r) && SomeLane(w.exec, 0)
    requires w.Scalar64(r.slot) == y.base && r.waveOffset == y.waveOffset && r.signalOffset == y.signalOffset
    requires var n := StepsBefore(r, w);
      && Enabled(s1, Register(id)) && Count(y, s1) < SLOTS && sched[n + 1] == s1.mem
      && Enabled(s2, Clear(id)) && s2.waves[id].slot == Count(y, s1) && sched[n + 8] == s2.mem
    ensures ReachesRegistration(code, q, r, w, sched)
    ensures var n := StepsBefore(r, w);
      && Step(code, Run(code, w, sched, n + 1), sched[n + 1]).1 == Apply(y, s1, Register(id)).mem
      && Step(code, Run(code, w, sched, n + 8), sched[n + 8]).1 == Apply(y, s2, Clear(id)).mem
      && (forall k :: n <= k < n + 10 && k != n + 1 && k != n + 8 ==>
        Step(code, Run(code, w, sched, k), sched[k]).1 == sched[k])
      && Run(code, w, sched, n + 10).pc == q + 18 && Run(code, w, sched, n + 10).exec == w.exec
      && forall l :: 0 <= l < 64 && w.exec[l] ==>
        Run(code, w, sched, n + 10).Lane64(r.addr, l) == (y.base + 4 * ReadMem(sched[n + 1], CounterAt(y))) % TWO64
  {
    hide At, InitCode, Registration, Run, Step, Target, Wave.Scalar64, Wave.Lane64, InitApart, SomeLane,
         CounterAt, SlotAt, StepsBefore;
    ResetRuns(code, q, r, w, sched);
    InitStands(code, q, r);
    var n := StepsBefore(r, w);
    assert n <= 8 by { AtMostEight(r, w); }
    var w1 := Run(code, w, sched, n);
    WorkerRegisters(y, s1, s2, id, code, q + 8, r, w1, sched[n..]);
    forall k | 0 <= k <= 10 ensures Run(code, w, sched, n + k) == Run(code, w1, sched[n..], k) {
      RunOn(code, w, sched, n, k);
    }
    forall k | n <= k < n + 10 && k != n + 1 && k != n + 8
      ensures Step(code, Run(code, w, sched, k), sched[k]).1 == sched[k]
    {
      assert Step(code, Run(code, w1, sched[n..], k - n), sched[n..][k - n]).1 == sched[n..][k - n];
    }
    RegistrationShape(r);
    RunStraight(code, q + 8, Registration(r), w1, sched[n..], 10);
  }

  lemma AtMostEight(r: InitRegs, w: Wave)
    ensures StepsBefore(r, w) <= 8
  {
  }
}

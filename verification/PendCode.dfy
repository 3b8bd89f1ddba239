/** The prefetch loop as it is emitted, and the proof that each turn of it is one poll of the filter,
    whatever other waves write to memory between any two of its instructions. */
module PendCode {
  import opened Words
  import opened Isa
  import opened Prefetch
  import opened Address

  /** The registers the emitter takes for the loop. */
  datatype PendRegs = PendRegs(
    tmp1: nat, tmp2: nat, signal: nat, signalAddr: nat, fetchFlag: nat, stack: nat,
    execSave: nat, waveNum: nat, oldFetch: nat, newFetch: nat, flag: nat)

  /** What the caller provides: v_tid_x, the slot base address, the output register, the labels and
      the two word offsets. */
  datatype PendArgs = PendArgs(tid: nat, slot: nat, out: nat, begin: string, end: string, waveOffset: nat,
                               signalOffset: nat)

  ghost predicate Separate(r: PendRegs, a: PendArgs) {
    && r.tmp1 !in {r.tmp2, r.signal, r.signalAddr, r.signalAddr + 1, r.fetchFlag, r.stack, a.tid}
    && r.tmp2 !in {r.signal, r.signalAddr, r.signalAddr + 1, r.fetchFlag, r.stack, a.tid}
    && r.signal !in {r.signalAddr, r.signalAddr + 1, r.fetchFlag, r.stack, a.tid}
    && r.fetchFlag !in {r.signalAddr, r.signalAddr + 1, r.stack, a.tid}
    && r.stack !in {r.signalAddr, r.signalAddr + 1, a.tid}
    && a.tid !in {r.signalAddr, r.signalAddr + 1}
    && r.execSave !in {r.waveNum, r.oldFetch, r.newFetch, r.flag, a.slot, a.slot + 1, a.out}
    && r.waveNum !in {r.oldFetch, r.newFetch, r.flag, a.slot, a.slot + 1, a.out}
    && r.oldFetch !in {r.newFetch, r.flag, a.slot, a.slot + 1, a.out}
    && r.newFetch !in {r.flag, a.slot, a.slot + 1, a.out}
    && r.flag !in {a.slot, a.slot + 1, a.out}
    && a.out !in {a.slot, a.slot + 1}
  }

  function PendSetup(r: PendRegs, a: PendArgs): seq<Instr> {
    [VAlu(VLshlRev, r.tmp1, Imm(2), V(a.tid), NONE)] + AddToBase(r.signalAddr, a.slot, r.tmp1, r.tmp2) + PendInit(r, a)
  }

  /** Only the lower 32 lanes poll; queue and bitmap start empty. */
  function PendInit(r: PendRegs, a: PendArgs): seq<Instr> {
    [SMov(ExecHi, Imm(0)),
     SMov(S(r.execSave), ExecLo),
     VAlu(VMov, r.stack, Imm(0), NONE, NONE),
     SMov(S(r.flag), Imm(0))]
  }

  /** Loop head: restore the mask. */
  function PendHead(r: PendRegs, a: PendArgs): seq<Instr> {
    [Label(a.begin), SMov(ExecLo, S(r.execSave)), Pause]
  }

  /** Read the wave counter; leave when it is zero. */
  function PendCount(r: PendRegs, a: PendArgs): seq<Instr> {
    [SLoad(r.waveNum, a.slot, 4 * a.waveOffset), Pause, SCmpEq(S(r.waveNum), Imm(0)), BranchIf(true, a.end)]
  }

  /** Read the slots and turn each index into a flag bit. */
  function PendRead(r: PendRegs, a: PendArgs): seq<Instr> {
    [FlatLoad(r.signal, r.signalAddr, 4 * a.signalOffset),
     Pause,
     VAlu(VLshlRev, r.fetchFlag, V(r.signal), Imm(1), NONE),
     SMov(S(r.execSave), ExecLo)]
  }

  /** Which flag bits are not in the bitmap yet. */
  function PendTest(r: PendRegs, a: PendArgs): seq<Instr> {
    [VReadFirst(r.oldFetch, r.stack),
     SAlu(SOr, r.flag, S(r.flag), Imm(1)),
     VAlu(VXor, r.tmp1, S(r.flag), V(r.fetchFlag), NONE),
     VAlu(VAnd, r.tmp1, V(r.tmp1), V(r.fetchFlag), NONE)]
  }

  /** Keep only the lanes with a new bit; poll again when there are none. */
  function PendSelect(r: PendRegs, a: PendArgs): seq<Instr> {
    [VCmpxNe(V(r.tmp1), Imm(0)), SCmpEq(VccLo, Imm(0)), BranchIf(true, a.begin)]
  }

  /** Take the first new index and update the bitmap. */
  function PendTake(r: PendRegs, a: PendArgs): seq<Instr> {
    [VReadFirst(r.newFetch, r.signal),
     SBitset(r.flag, S(r.oldFetch), false),
     SBitset(r.flag, S(r.newFetch), true),
     SMov(S(a.out), S(r.newFetch)),
     SMov(ExecLo, S(r.execSave))]
  }

  /** Shift the queue down by one lane and append the index. */
  function PendShift(r: PendRegs, a: PendArgs): seq<Instr> {
    [VAlu(VAdd, r.tmp1, V(a.tid), Imm(1), NONE),
     VAlu(VLshlRev, r.tmp1, Imm(2), V(r.tmp1), NONE),
     DsBpermute(r.stack, r.tmp1, r.stack),
     VWriteLane(r.stack, S(r.newFetch), 7)]
  }

  function PendLoop(r: PendRegs, a: PendArgs): seq<Instr> {
    PendHead(r, a) + PendCount(r, a) + PendRead(r, a) + PendTest(r, a) + PendSelect(r, a) +
    PendTake(r, a) + PendShift(r, a)
  }

  /** The lanes the loop polls with: those saved in s_exec_save, never one of the upper half. */
  ghost predicate Polls(w: Wave, r: PendRegs, active: Mask) {
    forall l :: 0 <= l < 64 ==> active[l] == (l < 32 && Bit(SReg(w.sgpr, r.execSave), l))
  }

  /** At a loop head the loop-carried registers hold the filter's state. The upper half of exec is off,
      lanes 0..7 are polled, and v_tid_x counts the lanes of the queue. */
  ghost predicate Carries(w: Wave, r: PendRegs, a: PendArgs, active: Mask, f: Fetch) {
    && |f.window| == DEPTH
    && SReg(w.sgpr, r.flag) == f.flag
    && QueueHolds(w, r, f.window)
    && Polls(w, r, active)
    && (forall l :: 32 <= l < 64 ==> !w.exec[l])
    && Ready(w, a, active)
  }

  ghost predicate Ready(w: Wave, a: PendArgs, active: Mask) {
    && (forall l :: 32 <= l < 64 ==> !active[l])
    && (forall l :: 0 <= l < DEPTH ==> active[l] && VReg(w.vgpr, a.tid, l) == l)
  }

  ghost predicate QueueHolds(w: Wave, r: PendRegs, window: seq<Word>)
    requires |window| == DEPTH
  {
    forall i :: 0 <= i < DEPTH ==> VReg(w.vgpr, r.stack, i) == window[i]
  }

  /** Only registers the emitter took, and the output register, differ. */
  ghost predicate Untouched(w: Wave, w': Wave, r: PendRegs, a: PendArgs) {
    && (forall s: nat :: s !in {r.execSave, r.waveNum, r.oldFetch, r.newFetch, r.flag, a.out} ==>
      SReg(w'.sgpr, s) == SReg(w.sgpr, s))
    && (forall v: nat, l :: v !in {r.tmp1, r.signal, r.fetchFlag, r.stack} && 0 <= l < 64 ==>
      VReg(w'.vgpr, v, l) == VReg(w.vgpr, v, l))
  }

  /** What the lanes find in their slots. */
  function Slots(w: Wave, r: PendRegs, a: PendArgs, active: Mask, m: Mem): Poll {
    Poll(active, LoadLanes(w, m, r.signalAddr, 4 * a.signalOffset))
  }

  // ---------------------------------------------------------------------------------------------
  // What each group of instructions does
  // ---------------------------------------------------------------------------------------------

  lemma HeadDoes(r: PendRegs, a: PendArgs, w: Wave, sched: seq<Mem>)
    requires |sched| >= 3
    ensures Through(PendHead(r, a), w, sched, 3) ==
      w.(exec := WithLow(w.exec, SReg(w.sgpr, r.execSave)), pc := w.pc + 3)
  {
    hide Through, Exec, LowWord, SetLanes, SetLane, VectorLanes, LoadLanes, PermuteLanes, Or, And, Xor, Shl, WordOf,
         FromBits, Pow2;
    var w1 := w.(pc := w.pc + 1);
    DoLabel(a.begin, w, sched[0]);
    DoMovExecLo(S(r.execSave), w1, sched[1]);
    DoPause(w1.(exec := WithLow(w.exec, SReg(w.sgpr, r.execSave)), pc := w.pc + 2), sched[2]);
    Through3(PendHead(r, a), w, sched);
  }

  lemma CountDoes(r: PendRegs, a: PendArgs, w: Wave, sched: seq<Mem>)
    requires |sched| >= 3
    ensures var n := ReadMem(sched[0], Effective(w.Scalar64(a.slot), 4 * a.waveOffset));
      Through(PendCount(r, a), w, sched, 3) == w.(sgpr := w.sgpr[r.waveNum := n], scc := n == 0, pc := w.pc + 3)
  {
    hide Through, Exec, LowWord, SetLanes, SetLane, VectorLanes, LoadLanes, PermuteLanes, Or, And, Xor, Shl, WordOf,
         FromBits, Pow2;
    var n := ReadMem(sched[0], Effective(w.Scalar64(a.slot), 4 * a.waveOffset));
    var w1 := w.(sgpr := w.sgpr[r.waveNum := n], pc := w.pc + 1);
    DoLoad(r.waveNum, a.slot, 4 * a.waveOffset, w, sched[0]);
    DoPause(w1, sched[1]);
    DoCmpEq(S(r.waveNum), Imm(0), w1.(pc := w.pc + 2), sched[2]);
    Through3(PendCount(r, a), w, sched);
  }

  ghost predicate AfterRead(r: PendRegs, a: PendArgs, w: Wave, m: Mem, w': Wave) {
    && w' == w.(vgpr := w'.vgpr, sgpr := w.sgpr[r.execSave := LowWord(w.exec)], pc := w.pc + 4)
    && (forall l :: 0 <= l < 64 && w.exec[l] ==>
      && VReg(w'.vgpr, r.signal, l) == ReadMem(m, Effective(w.Lane64(r.signalAddr, l), 4 * a.signalOffset))
      && VReg(w'.vgpr, r.fetchFlag, l) == Shl(1, VReg(w'.vgpr, r.signal, l)))
    && (forall v: nat, l :: v !in {r.signal, r.fetchFlag} && 0 <= l < 64 ==> VReg(w'.vgpr, v, l) == VReg(w.vgpr, v, l))
  }

  lemma ReadDoes(r: PendRegs, a: PendArgs, w: Wave, sched: seq<Mem>)
    requires Separate(r, a) && |sched| >= 4
    ensures AfterRead(r, a, w, sched[0], Through(PendRead(r, a), w, sched, 4))
  {
    hide Through, Exec, LowWord, SetLanes, SetLane, VectorLanes, LoadLanes, PermuteLanes, FirstLane, SetLaneFrom, Or,
         And, Xor, Shl, WithBit, WordOf, FromBits, Pow2;
    var w1 := w.(vgpr := SetLanes(w.vgpr, w.exec, r.signal, LoadLanes(w, sched[0], r.signalAddr, 4 * a.signalOffset)),
                 pc := w.pc + 1);
    DoFlatLoad(r.signal, r.signalAddr, 4 * a.signalOffset, w, sched[0]);
    var w2 := w1.(pc := w.pc + 2);
    DoPause(w1, sched[1]);
    var w3 := w2.(vgpr := SetLanes(w2.vgpr, w2.exec, r.fetchFlag, VectorLanes(w2, VLshlRev, V(r.signal), Imm(1), NONE)),
                  pc := w.pc + 3);
    DoVector(VLshlRev, r.fetchFlag, V(r.signal), Imm(1), NONE, w2, sched[2]);
    DoMov(r.execSave, ExecLo, w3, sched[3]);
    Through4(PendRead(r, a), w, sched);
  }

  /** v_tmp1 is zero in the lanes whose flag bit the bitmap has. */
  ghost predicate AfterTest(r: PendRegs, w: Wave, w': Wave) {
    var flag, oldest := Or(SReg(w.sgpr, r.flag), 1), w.Lane(r.stack, FirstLane(w.exec));
    && w' == w.(vgpr := w'.vgpr, sgpr := w.sgpr[r.oldFetch := oldest][r.flag := flag], scc := flag != 0, pc := w.pc + 4)
    && (forall l :: 0 <= l < 64 && w.exec[l] ==>
      var ff := VReg(w.vgpr, r.fetchFlag, l); VReg(w'.vgpr, r.tmp1, l) == And(Xor(flag, ff), ff))
    && (forall v: nat, l :: v != r.tmp1 && 0 <= l < 64 ==> VReg(w'.vgpr, v, l) == VReg(w.vgpr, v, l))
  }

  lemma {:induction false} TestDoes(r: PendRegs, a: PendArgs, w: Wave, sched: seq<Mem>)
    requires Separate(r, a) && |sched| >= 4
    ensures AfterTest(r, w, Through(PendTest(r, a), w, sched, 4))
  {
    hide Through, Exec, LowWord, SetLanes, SetLane, VectorLanes, LoadLanes, PermuteLanes, FirstLane, SetLaneFrom, Or,
         And, Xor, Shl, WithBit, WordOf, FromBits, Pow2;
    var w1 := w.WithScalar(r.oldFetch, VReg(w.vgpr, r.stack, FirstLane(w.exec))).(pc := w.pc + 1);
    DoReadFirst(r.oldFetch, r.stack, w, sched[0]);
    var flag := Or(SReg(w.sgpr, r.flag), 1);
    var w2 := w1.WithScalar(r.flag, flag).(scc := flag != 0, pc := w.pc + 2);
    DoScalar(SOr, r.flag, S(r.flag), Imm(1), w1, sched[1]);
    var w3 := w2.(vgpr := SetLanes(w2.vgpr, w2.exec, r.tmp1, VectorLanes(w2, VXor, S(r.flag), V(r.fetchFlag), NONE)),
                  pc := w.pc + 3);
    DoVector(VXor, r.tmp1, S(r.flag), V(r.fetchFlag), NONE, w2, sched[2]);
    DoVector(VAnd, r.tmp1, V(r.tmp1), V(r.fetchFlag), NONE, w3, sched[3]);
    Through4(PendTest(r, a), w, sched);
  }

  ghost predicate AfterSelect(r: PendRegs, w: Wave, w': Wave) {
    && w' == w.(exec := w'.exec, vcc := w'.exec, scc := LowWord(w'.exec) == 0, pc := w.pc + 2)
    && (forall l :: 0 <= l < 64 ==> w'.exec[l] == (w.exec[l] && VReg(w.vgpr, r.tmp1, l) != 0))
  }

  lemma SelectDoes(r: PendRegs, a: PendArgs, w: Wave, sched: seq<Mem>)
    requires |sched| >= 2
    ensures AfterSelect(r, w, Through(PendSelect(r, a), w, sched, 2))
  {
    hide Through, Exec, LowWord, SetLanes, SetLane, VectorLanes, LoadLanes, PermuteLanes, FirstLane, SetLaneFrom, Or,
         And, Xor, Shl, WithBit, WordOf, FromBits, Pow2;
    var k := NotEqualMask(w, V(r.tmp1), Imm(0));
    DoCmpxNe(V(r.tmp1), Imm(0), w, sched[0]);
    DoCmpEq(VccLo, Imm(0), w.(vcc := k, exec := k, pc := w.pc + 1), sched[1]);
    Through2(PendSelect(r, a), w, sched);
  }

  ghost predicate AfterTake(r: PendRegs, a: PendArgs, w: Wave, w': Wave) {
    var x := VReg(w.vgpr, r.signal, FirstLane(w.exec));
    w' == w.(sgpr := w.sgpr[r.newFetch := x]
                   [r.flag := WithBit(WithBit(SReg(w.sgpr, r.flag), SReg(w.sgpr, r.oldFetch), false), x, true)]
                   [a.out := x],
             exec := WithLow(w.exec, SReg(w.sgpr, r.execSave)), pc := w.pc + 5)
  }

  lemma TakeDoes(r: PendRegs, a: PendArgs, w: Wave, sched: seq<Mem>)
    requires Separate(r, a) && |sched| >= 5
    ensures AfterTake(r, a, w, Through(PendTake(r, a), w, sched, 5))
  {
    hide Through, Exec, LowWord, SetLanes, SetLane, VectorLanes, LoadLanes, PermuteLanes, FirstLane, SetLaneFrom, Or,
         And, Xor, Shl, WithBit, WordOf, FromBits, Pow2;
    var x := VReg(w.vgpr, r.signal, FirstLane(w.exec));
    var w1 := w.WithScalar(r.newFetch, x).(pc := w.pc + 1);
    DoReadFirst(r.newFetch, r.signal, w, sched[0]);
    var cleared := WithBit(SReg(w.sgpr, r.flag), SReg(w.sgpr, r.oldFetch), false);
    var w2 := w1.WithScalar(r.flag, cleared).(pc := w.pc + 2);
    DoBitset(r.flag, S(r.oldFetch), false, w1, sched[1]);
    var w3 := w2.WithScalar(r.flag, WithBit(cleared, x, true)).(pc := w.pc + 3);
    DoBitset(r.flag, S(r.newFetch), true, w2, sched[2]);
    var w4 := w3.WithScalar(a.out, x).(pc := w.pc + 4);
    DoMov(a.out, S(r.newFetch), w3, sched[3]);
    DoMovExecLo(S(r.execSave), w4, sched[4]);
    Through5(PendTake(r, a), w, sched);
    assert w1.sgpr[r.flag := cleared][r.flag := WithBit(cleared, x, true)] ==
      w1.sgpr[r.flag := WithBit(cleared, x, true)];
  }

  /** Lanes 0..6 of the queue get their upper neighbour, lane 7 the new index. */
  ghost predicate AfterShift(r: PendRegs, a: PendArgs, w: Wave, w': Wave) {
    && w' == w.(vgpr := w'.vgpr, pc := w.pc + 4)
    && (forall l :: 0 <= l < 7 ==> VReg(w'.vgpr, r.stack, l) == VReg(w.vgpr, r.stack, l + 1))
    && VReg(w'.vgpr, r.stack, 7) == SReg(w.sgpr, r.newFetch)
    && (forall v: nat, l :: v !in {r.tmp1, r.stack} && 0 <= l < 64 ==> VReg(w'.vgpr, v, l) == VReg(w.vgpr, v, l))
  }

  /** The first two instructions: v_tmp1 addresses the next lane up. */
  ghost predicate AfterAddress(r: PendRegs, w: Wave, w': Wave) {
    && w' == w.(vgpr := w'.vgpr, pc := w.pc + 2)
    && (forall l :: 0 <= l < 7 ==> VReg(w'.vgpr, r.tmp1, l) == 4 * (l + 1))
    && (forall v: nat, l :: v != r.tmp1 && 0 <= l < 64 ==> VReg(w'.vgpr, v, l) == VReg(w.vgpr, v, l))
  }

  ghost predicate CountsLanes(w: Wave, a: PendArgs) {
    forall l :: 0 <= l < DEPTH ==> w.exec[l] && VReg(w.vgpr, a.tid, l) == l
  }

  lemma AddressDoes(r: PendRegs, a: PendArgs, w: Wave, sched: seq<Mem>)
    requires Separate(r, a) && |sched| >= 2 && CountsLanes(w, a)
    ensures var b := PendShift(r, a);
      AfterAddress(r, w, Exec(b[1], Exec(b[0], w, sched[0]).0, sched[1]).0)
  {
    hide Through, Exec, LowWord, SetLanes, SetLane, VectorLanes, LoadLanes, PermuteLanes, FirstLane, SetLaneFrom, Or,
         And, Xor, Shl, WithBit, WordOf, FromBits, Pow2;
    var w1 := w.(vgpr := SetLanes(w.vgpr, w.exec, r.tmp1, VectorLanes(w, VAdd, V(a.tid), Imm(1), NONE)),
      pc := w.pc + 1);
    DoVector(VAdd, r.tmp1, V(a.tid), Imm(1), NONE, w, sched[0]);
    DoVector(VLshlRev, r.tmp1, Imm(2), V(r.tmp1), NONE, w1, sched[1]);
    forall l | 0 <= l < 7 ensures Shl(VReg(w1.vgpr, r.tmp1, l), 2) == 4 * (l + 1) {
      assert VReg(w1.vgpr, r.tmp1, l) == l + 1;
      ShlBy2(l + 1);
    }
  }

  /** The last two: the queue moves down by one lane, the new index enters at lane 7. */
  ghost predicate AfterRoll(r: PendRegs, w: Wave, w': Wave) {
    && w' == w.(vgpr := w'.vgpr, pc := w.pc + 2)
    && (forall l :: 0 <= l < 7 ==> VReg(w'.vgpr, r.stack, l) == VReg(w.vgpr, r.stack, l + 1))
    && VReg(w'.vgpr, r.stack, 7) == SReg(w.sgpr, r.newFetch)
    && (forall v: nat, l :: v != r.stack && 0 <= l < 64 ==> VReg(w'.vgpr, v, l) == VReg(w.vgpr, v, l))
  }

  lemma {:induction false} RollDoes(r: PendRegs, w: Wave, m: Mem, m': Mem)
    requires forall l :: 0 <= l < DEPTH ==> w.exec[l]
    requires forall l :: 0 <= l < 7 ==> VReg(w.vgpr, r.tmp1, l) == 4 * (l + 1)
    ensures AfterRoll(r, w,
      Exec(VWriteLane(r.stack, S(r.newFetch), 7), Exec(DsBpermute(r.stack, r.tmp1, r.stack), w, m).0, m').0)
  {
    hide Through, Exec, LowWord, SetLanes, SetLane, VectorLanes, LoadLanes, PermuteLanes, SourceLane, FirstLane,
         SetLaneFrom, Or, And, Xor, Shl, WithBit, WordOf, FromBits, Pow2;
    var w1 := w.(vgpr := SetLanes(w.vgpr, w.exec, r.stack, PermuteLanes(w, r.tmp1, r.stack)), pc := w.pc + 1);
    DoPermute(r.stack, r.tmp1, r.stack, w, m);
    DoWriteLane(r.stack, S(r.newFetch), 7, w1, m');
    forall l | 0 <= l < 7 ensures VReg(w1.vgpr, r.stack, l) == VReg(w.vgpr, r.stack, l + 1) {
      SourceLaneOf(l + 1);
    }
  }

  lemma {:induction false} ShiftDoes(r: PendRegs, a: PendArgs, w: Wave, sched: seq<Mem>)
    requires Separate(r, a) && |sched| >= 4 && CountsLanes(w, a)
    ensures AfterShift(r, a, w, Through(PendShift(r, a), w, sched, 4))
  {
    hide Through, Exec, LowWord, SetLanes, SetLane, VectorLanes, LoadLanes, PermuteLanes, FirstLane, SetLaneFrom, Or,
         And, Xor, Shl, WithBit, WordOf, FromBits, Pow2;
    var b := PendShift(r, a);
    var w2 := Exec(b[1], Exec(b[0], w, sched[0]).0, sched[1]).0;
    AddressDoes(r, a, w, sched);
    RollDoes(r, w2, sched[2], sched[3]);
    Through4(b, w, sched);
  }

  // ---------------------------------------------------------------------------------------------
  // One turn of the loop
  // ---------------------------------------------------------------------------------------------

  lemma LowWordBit(m: Mask, l: nat)
    requires l < 32
    ensures Bit(LowWord(m), l) == m[l]
  {
    FromBitsBit(m[..32], l);
  }

  lemma LowWordZero(m: Mask)
    requires forall l :: 32 <= l < 64 ==> !m[l]
    ensures LowWord(m) == 0 <==> forall l :: 0 <= l < 64 ==> !m[l]
  {
    hide LowWord;
    forall l | 0 <= l < 32 ensures Bit(LowWord(m), l) == m[l] { LowWordBit(m, l); }
    if LowWord(m) == 0 {
      forall l | 0 <= l < 32 ensures !m[l] { ZeroBit(l); }
    } else {
      WordIsZero(LowWord(m));
    }
  }

  /** flag & ~bitmap is nonzero exactly when the index is not in the bitmap. */
  lemma FreshFlag(flag: Word, x: Word)
    ensures And(Xor(flag, Shl(1, x)), Shl(1, x)) != 0 <==> !Bit(flag, Index(x))
  {
    hide And, Xor, Shl, Bit;
    var ff := Shl(1, x);
    var t := And(Xor(flag, ff), ff);
    forall k: nat | k < 32 ensures Bit(t, k) == (k == Index(x) && !Bit(flag, k)) {
      AndBit(Xor(flag, ff), ff, k);
      XorBit(flag, ff, k);
      OneShlBit(x, k);
    }
    if t == 0 { ZeroBit(Index(x)); } else { WordIsZero(t); }
  }

  lemma GroupsAt(code: seq<Instr>, p: nat, r: PendRegs, a: PendArgs)
    requires At(code, p, PendLoop(r, a))
    ensures At(code, p, PendHead(r, a)) && At(code, p + 3, PendCount(r, a)) && At(code, p + 7, PendRead(r, a))
    ensures At(code, p + 11, PendTest(r, a)) && At(code, p + 15, PendSelect(r, a))
    ensures At(code, p + 18, PendTake(r, a)) && At(code, p + 23, PendShift(r, a))
  {
    var b := PendLoop(r, a);
    assert forall i :: 0 <= i < 3 ==> b[i] == PendHead(r, a)[i];
    assert forall i :: 0 <= i < 4 ==> b[3 + i] == PendCount(r, a)[i];
    assert forall i :: 0 <= i < 4 ==> b[7 + i] == PendRead(r, a)[i];
    assert forall i :: 0 <= i < 4 ==> b[11 + i] == PendTest(r, a)[i];
    assert forall i :: 0 <= i < 3 ==> b[15 + i] == PendSelect(r, a)[i];
    assert forall i :: 0 <= i < 5 ==> b[18 + i] == PendTake(r, a)[i];
    assert forall i :: 0 <= i < 4 ==> b[23 + i] == PendShift(r, a)[i];
  }

  lemma StepBranchIf(code: seq<Instr>, w: Wave, m: Mem, c: bool, to: string)
    requires w.pc < |code| && code[w.pc] == BranchIf(c, to)
    ensures Step(code, w, m).0 == w.(pc := if w.scc == c then Target(code, to) else w.pc + 1)
  {
    hide Exec, Target;
  }

  /** From the loop head to the branch on the wave counter. */
  lemma CountStage(code: seq<Instr>, p: nat, r: PendRegs, a: PendArgs, w: Wave, active: Mask, f: Fetch, sched: seq<Mem>)
    requires Separate(r, a) && At(code, p, PendLoop(r, a)) && w.pc == p && Carries(w, r, a, active, f) && |sched| >= 7
    ensures var n := ReadMem(sched[3], Effective(w.Scalar64(a.slot), 4 * a.waveOffset));
      Run(code, w, sched, 7) == w.(sgpr := w.sgpr[r.waveNum := n], exec := active, scc := n == 0,
                                   pc := if n == 0 then Target(code, a.end) else p + 7)
  {
    hide Run, Step, Through, Target, PendLoop, PendHead, PendCount, QueueHolds;
    GroupsAt(code, p, r, a);
    HeadPart(code, p, r, a, w, sched);
    assert WithLow(w.exec, SReg(w.sgpr, r.execSave)) == active;
    CountPart(code, p + 3, r, a, w.(exec := active, pc := p + 3), sched[3..]);
    RunOn(code, w, sched, 3, 4);
  }

  lemma HeadPart(code: seq<Instr>, p: nat, r: PendRegs, a: PendArgs, w: Wave, sched: seq<Mem>)
    requires At(code, p, PendHead(r, a)) && w.pc == p && |sched| >= 3
    ensures Run(code, w, sched, 3) == w.(exec := WithLow(w.exec, SReg(w.sgpr, r.execSave)), pc := p + 3)
  {
    hide Run, Through, WithLow;
    RunStraight(code, p, PendHead(r, a), w, sched, 3);
    HeadDoes(r, a, w, sched);
  }

  lemma CountPart(code: seq<Instr>, q: nat, r: PendRegs, a: PendArgs, w: Wave, sched: seq<Mem>)
    requires At(code, q, PendCount(r, a)) && w.pc == q && |sched| >= 4
    ensures var n := ReadMem(sched[0], Effective(w.Scalar64(a.slot), 4 * a.waveOffset));
      Run(code, w, sched, 4) == w.(sgpr := w.sgpr[r.waveNum := n], scc := n == 0,
                                   pc := if n == 0 then Target(code, a.end) else q + 4)
  {
    hide Step, Through, Target;
    var b := PendCount(r, a);
    RunStraight(code, q, b[..3], w, sched, 3);
    assert b == b[..3] + b[3..];
    ThroughPrefix(b[..3], b[3..], w, sched, 3);
    CountDoes(r, a, w, sched);
    assert code[q + 3] == b[3];
    StepBranchIf(code, Run(code, w, sched, 3), sched[3], true, a.end);
  }

  /** After the select: exec holds exactly the lanes with something new to fetch. */
  ghost predicate Selected(r: PendRegs, a: PendArgs, w: Wave, f: Fetch, p: Poll, w': Wave) {
    && |f.window| == DEPTH
    && w'.exec == Hits(Or(f.flag, 1), p)
    && w'.scc == !w'.exec[FirstLane(w'.exec)]
    && SReg(w'.sgpr, r.flag) == Or(f.flag, 1)
    && SReg(w'.sgpr, r.oldFetch) == f.window[0]
    && Polls(w', r, p.active)
    && QueueHolds(w', r, f.window)
    && (forall l :: 0 <= l < 64 && p.active[l] ==> VReg(w'.vgpr, r.signal, l) == p.signal[l])
    && Untouched(w, w', r, a)
    && w'.hwId == w.hwId
  }

  /** The three groups in terms of the filter's state; w1, w2, w3 are the waves after each. */
  lemma SelectFacts(r: PendRegs, a: PendArgs, w: Wave, active: Mask, f: Fetch, m: Mem, w1: Wave, w2: Wave, w3: Wave)
    requires Separate(r, a) && Carries(w, r, a, active, f) && w.exec == active
    requires AfterRead(r, a, w, m, w1) && AfterTest(r, w1, w2) && AfterSelect(r, w2, w3)
    ensures Selected(r, a, w, f, Slots(w, r, a, active, m), w3)
  {
    hide LowWord, LoadLanes, Or, And, Xor, Shl, Bit, FirstLane, SetLaneFrom;
    var p := Slots(w, r, a, active, m);
    var flag := Or(f.flag, 1);
    forall l | 0 <= l < 64 && active[l] ensures VReg(w1.vgpr, r.signal, l) == p.signal[l] {}
    assert FirstLane(active) == 0 by { FirstLaneZero(active); }
    forall l | 0 <= l < 64 ensures w3.exec[l] == Hits(flag, p)[l] {
      if active[l] { FreshFlag(flag, p.signal[l]); }
    }
    assert w3.exec == Hits(flag, p);
    forall l | 0 <= l < 32 ensures Bit(LowWord(active), l) == active[l] { LowWordBit(active, l); }
    LowWordZero(w3.exec);
    NoLane(w3.exec);
  }

  lemma FirstLaneZero(m: Mask)
    requires m[0]
    ensures FirstLane(m) == 0
  {
  }

  lemma NoLane(m: Mask)
    ensures (forall l :: 0 <= l < 64 ==> !m[l]) <==> !m[FirstLane(m)]
  {
  }

  lemma SelectedAnyPc(r: PendRegs, a: PendArgs, w: Wave, f: Fetch, p: Poll, w': Wave, pc: nat)
    requires Selected(r, a, w, f, p, w')
    ensures Selected(r, a, w, f, p, w'.(pc := pc))
  {
    hide Hits, FirstLane;
  }

  lemma SelectPart(code: seq<Instr>, q: nat, r: PendRegs, a: PendArgs, w: Wave, sched: seq<Mem>)
    requires At(code, q, PendSelect(r, a)) && w.pc == q && |sched| >= 3
    ensures var w' := Run(code, w, sched, 2);
      && AfterSelect(r, w, w') && w'.pc == q + 2
      && Run(code, w, sched, 3) == w'.(pc := if w'.scc then Target(code, a.begin) else q + 3)
  {
    hide Step, Through, Target, AfterSelect;
    var b := PendSelect(r, a);
    RunStraight(code, q, b[..2], w, sched, 2);
    assert b == b[..2] + b[2..];
    ThroughPrefix(b[..2], b[2..], w, sched, 2);
    SelectDoes(r, a, w, sched);
    assert code[q + 2] == b[2];
    StepBranchIf(code, Run(code, w, sched, 2), sched[2], true, a.begin);
  }

  lemma {:induction false} ReadPart(code: seq<Instr>, q: nat, r: PendRegs, a: PendArgs, w: Wave, sched: seq<Mem>)
    requires Separate(r, a) && At(code, q, PendRead(r, a)) && w.pc == q && |sched| >= 4
    ensures var w' := Run(code, w, sched, 4); AfterRead(r, a, w, sched[0], w') && w'.pc == q + 4
  {
    hide Run, Through, AfterRead;
    RunStraight(code, q, PendRead(r, a), w, sched, 4);
    ReadDoes(r, a, w, sched);
  }

  lemma {:induction false} TestPart(code: seq<Instr>, q: nat, r: PendRegs, a: PendArgs, w: Wave, sched: seq<Mem>)
    requires Separate(r, a) && At(code, q, PendTest(r, a)) && w.pc == q && |sched| >= 4
    ensures var w' := Run(code, w, sched, 4); AfterTest(r, w, w') && w'.pc == q + 4
  {
    hide Run, Through, AfterTest;
    RunStraight(code, q, PendTest(r, a), w, sched, 4);
    TestDoes(r, a, w, sched);
  }

  lemma {:induction false} SelectStage(code: seq<Instr>, q: nat, r: PendRegs, a: PendArgs, w: Wave, active: Mask,
                                       f: Fetch, sched: seq<Mem>)
    requires Separate(r, a) && Carries(w, r, a, active, f) && w.exec == active && w.pc == q && |sched| >= 11
    requires At(code, q, PendRead(r, a)) && At(code, q + 4, PendTest(r, a)) && At(code, q + 8, PendSelect(r, a))
    ensures var w' := Run(code, w, sched, 11);
      && Selected(r, a, w, f, Slots(w, r, a, active, sched[0]), w')
      && w'.pc == if w'.scc then Target(code, a.begin) else q + 11
  {
    hide Step, Through, Target, Run, AfterRead, AfterTest, AfterSelect, Selected, Carries, PendRead, PendTest,
         PendSelect, Slots;
    var w1 := Run(code, w, sched, 4);
    ReadPart(code, q, r, a, w, sched);
    var w2 := Run(code, w1, sched[4..], 4);
    TestPart(code, q + 4, r, a, w1, sched[4..]);
    RunOn(code, w, sched, 4, 4);
    assert sched[4..][4..] == sched[8..];
    var w3 := Run(code, w2, sched[8..], 2);
    SelectPart(code, q + 8, r, a, w2, sched[8..]);
    RunOn(code, w, sched, 8, 3);
    SelectFacts(r, a, w, active, f, sched[0], w1, w2, w3);
    SelectedAnyPc(r, a, w, f, Slots(w, r, a, active, sched[0]), w3, Run(code, w2, sched[8..], 3).pc);
  }

  /** After the take and the shift: the filter's next state, ready for the next loop head. */
  lemma TakeFacts(r: PendRegs, a: PendArgs, w: Wave, f: Fetch, p: Poll, s: Wave, w1: Wave, w2: Wave)
    requires Separate(r, a) && Selected(r, a, w, f, p, s) && !s.scc && Ready(w, a, p.active)
    requires AfterTake(r, a, s, w1) && AfterShift(r, a, w1, w2)
    ensures var (f', o) := PollBits(f, p);
      o.Deliver? && SReg(w2.sgpr, a.out) == o.signal && Carries(w2, r, a, p.active, f') && Untouched(w, w2, r, a)
  {
    hide LowWord, Hits, Or, WithBit, FirstLane, Untouched, QueueHolds, Polls;
    assert p.active[FirstLane(s.exec)];
    TakeQueue(r, a, f, p, s, w1, w2);
    TakeLeaves(r, a, w, f, p, s, w1, w2);
  }

  lemma TakeQueue(r: PendRegs, a: PendArgs, f: Fetch, p: Poll, s: Wave, w1: Wave, w2: Wave)
    requires Separate(r, a) && |f.window| == DEPTH && QueueHolds(s, r, f.window)
    requires AfterTake(r, a, s, w1) && AfterShift(r, a, w1, w2)
    ensures QueueHolds(w2, r, f.window[1..] + [VReg(s.vgpr, r.signal, FirstLane(s.exec))])
  {
    hide LowWord, WithBit, FirstLane, WithLow;
  }

  lemma TakeLeaves(r: PendRegs, a: PendArgs, w: Wave, f: Fetch, p: Poll, s: Wave, w1: Wave, w2: Wave)
    requires Separate(r, a) && Selected(r, a, w, f, p, s) && Ready(w, a, p.active)
    requires AfterTake(r, a, s, w1) && AfterShift(r, a, w1, w2)
    ensures Untouched(w, w2, r, a) && Polls(w2, r, p.active) && Ready(w2, a, p.active)
    ensures forall l :: 32 <= l < 64 ==> !w2.exec[l]
  {
    hide LowWord, Hits, Or, WithBit, FirstLane, QueueHolds;
  }

  lemma {:induction false} TakeStage(code: seq<Instr>, q: nat, r: PendRegs, a: PendArgs, w: Wave, f: Fetch, p: Poll,
                                     s: Wave, sched: seq<Mem>)
    requires Separate(r, a) && Selected(r, a, w, f, p, s) && !s.scc && s.pc == q && |sched| >= 9
    requires Ready(w, a, p.active)
    requires At(code, q, PendTake(r, a)) && At(code, q + 5, PendShift(r, a))
    ensures var (f', o) := PollBits(f, p);
      var w' := Run(code, s, sched, 9);
      && o.Deliver? && SReg(w'.sgpr, a.out) == o.signal && Carries(w', r, a, p.active, f') && Untouched(w, w', r, a)
      && w'.pc == q + 9
  {
    hide Run, Untouched, Carries, PollBits;
    var w1 := Run(code, s, sched, 5);
    TakePart(code, q, r, a, s, sched);
    ExecRestored(r, a, w, f, p, s, w1);
    ShiftPart(code, q + 5, r, a, w1, sched[5..]);
    RunOn(code, s, sched, 5, 4);
    TakeFacts(r, a, w, f, p, s, w1, Run(code, s, sched, 9));
  }

  lemma ExecRestored(r: PendRegs, a: PendArgs, w: Wave, f: Fetch, p: Poll, s: Wave, w1: Wave)
    requires Separate(r, a) && Selected(r, a, w, f, p, s) && AfterTake(r, a, s, w1)
    requires Ready(w, a, p.active)
    ensures CountsLanes(w1, a)
  {
    hide Hits, Or, WithBit, FirstLane;
  }

  lemma TakePart(code: seq<Instr>, q: nat, r: PendRegs, a: PendArgs, w: Wave, sched: seq<Mem>)
    requires Separate(r, a) && At(code, q, PendTake(r, a)) && w.pc == q && |sched| >= 5
    ensures var w' := Run(code, w, sched, 5); AfterTake(r, a, w, w') && w'.pc == q + 5
  {
    hide Run, Through, AfterTake;
    RunStraight(code, q, PendTake(r, a), w, sched, 5);
    TakeDoes(r, a, w, sched);
  }

  lemma ShiftPart(code: seq<Instr>, q: nat, r: PendRegs, a: PendArgs, w: Wave, sched: seq<Mem>)
    requires Separate(r, a) && CountsLanes(w, a) && At(code, q, PendShift(r, a)) && w.pc == q && |sched| >= 4
    ensures var w' := Run(code, w, sched, 4); AfterShift(r, a, w, w') && w'.pc == q + 4
  {
    hide Run, Through, AfterShift;
    RunStraight(code, q, PendShift(r, a), w, sched, 4);
    ShiftDoes(r, a, w, sched);
  }

  /** One turn from the loop head. Counter zero: out of the loop after seven steps. Otherwise the turn is
      one poll of the filter on what the slots hold at step 8: back at the head after 18 steps when the
      poll is idle, at the caller's code after 27 with the index in the output register when it is not. */
  lemma {:induction false} Turn(code: seq<Instr>, p: nat, r: PendRegs, a: PendArgs, w: Wave, active: Mask, f: Fetch,
                                sched: seq<Mem>)
    requires Separate(r, a) && At(code, p, PendLoop(r, a)) && Target(code, a.begin) == p && w.pc == p
    requires Carries(w, r, a, active, f) && |sched| >= 27
    ensures
      if ReadMem(sched[3], Effective(w.Scalar64(a.slot), 4 * a.waveOffset)) == 0 then
        Run(code, w, sched, 7).pc == Target(code, a.end)
      else
        var (f', o) := PollBits(f, Slots(w, r, a, active, sched[7]));
        var w1, w2 := Run(code, w, sched, 18), Run(code, w, sched, 27);
        if o.Idle? then
          w1.pc == p && Carries(w1, r, a, active, f') && Untouched(w, w1, r, a)
        else
          && w1.pc == p + 18 && w2.pc == p + 27
          && SReg(w2.sgpr, a.out) == o.signal && Carries(w2, r, a, active, f') && Untouched(w, w2, r, a)
  {
    hide Run, Target, At, PendLoop, PendTake, PendShift, Selected, PollBits, Carries, Untouched, LoadLanes;
    CountStage(code, p, r, a, w, active, f, sched);
    if ReadMem(sched[3], Effective(w.Scalar64(a.slot), 4 * a.waveOffset)) != 0 {
      var poll := Slots(w, r, a, active, sched[7]);
      var s := Run(code, w, sched, 18);
      TurnSelect(code, p, r, a, w, active, f, sched);
      if s.scc {
        IdleFacts(r, a, w, f, poll, s);
      } else {
        GroupsAt(code, p, r, a);
        TakeStage(code, p + 18, r, a, w, f, poll, s, sched[18..]);
        RunOn(code, w, sched, 18, 9);
      }
    }
  }

  lemma {:induction false} TurnSelect(code: seq<Instr>, p: nat, r: PendRegs, a: PendArgs, w: Wave, active: Mask,
                                      f: Fetch, sched: seq<Mem>)
    requires Separate(r, a) && At(code, p, PendLoop(r, a)) && Target(code, a.begin) == p && w.pc == p
    requires Carries(w, r, a, active, f) && |sched| >= 27
    requires ReadMem(sched[3], Effective(w.Scalar64(a.slot), 4 * a.waveOffset)) != 0
    ensures var s := Run(code, w, sched, 18);
      && Selected(r, a, w, f, Slots(w, r, a, active, sched[7]), s)
      && s.pc == (if s.scc then p else p + 18)
      && Ready(w, a, active)
  {
    hide Run, Target, At, PendLoop, PendRead, PendTest, PendSelect, Selected, Carries, Untouched, Slots;
    CountStage(code, p, r, a, w, active, f, sched);
    var n := ReadMem(sched[3], Effective(w.Scalar64(a.slot), 4 * a.waveOffset));
    var w0 := w.(sgpr := w.sgpr[r.waveNum := n], exec := active, scc := false, pc := p + 7);
    assert Run(code, w, sched, 7) == w0;
    CarriesOn(r, a, w, active, f, n, p + 7, sched[7]);
    GroupsAt(code, p, r, a);
    SelectStage(code, p + 7, r, a, w0, active, f, sched[7..]);
    RunOn(code, w, sched, 7, 11);
    SelectedFrom(r, a, w, w0, f, Slots(w, r, a, active, sched[7]), Run(code, w, sched, 18));
  }

  lemma CarriesOn(r: PendRegs, a: PendArgs, w: Wave, active: Mask, f: Fetch, n: Word, pc: nat, m: Mem)
    requires Separate(r, a) && Carries(w, r, a, active, f)
    ensures var w0 := w.(sgpr := w.sgpr[r.waveNum := n], exec := active, scc := false, pc := pc);
      && Carries(w0, r, a, active, f) && Untouched(w, w0, r, a) && Ready(w, a, active)
      && Slots(w0, r, a, active, m) == Slots(w, r, a, active, m)
  {
    var w0 := w.(sgpr := w.sgpr[r.waveNum := n], exec := active, scc := false, pc := pc);
    assert LoadLanes(w0, m, r.signalAddr, 4 * a.signalOffset) == LoadLanes(w, m, r.signalAddr, 4 * a.signalOffset);
  }

  lemma SelectedFrom(r: PendRegs, a: PendArgs, w: Wave, w0: Wave, f: Fetch, p: Poll, s: Wave)
    requires Selected(r, a, w0, f, p, s) && Untouched(w, w0, r, a) && w.hwId == w0.hwId
    ensures Selected(r, a, w, f, p, s)
  {
    hide Hits, FirstLane, Polls, QueueHolds, Or;
  }

  lemma IdleFacts(r: PendRegs, a: PendArgs, w: Wave, f: Fetch, p: Poll, s: Wave)
    requires Separate(r, a) && Selected(r, a, w, f, p, s) && s.scc
    requires Ready(w, a, p.active)
    ensures var (f', o) := PollBits(f, p); o.Idle? && Carries(s, r, a, p.active, f') && Untouched(w, s, r, a)
  {
    hide FirstLane, Or;
  }
}

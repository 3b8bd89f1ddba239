/** The whole prefetch loop: from the instructions that set it up, through any number of turns, with
    the caller's code between a delivery and the jump back. */
module PendRun {
  import opened Words
  import opened Isa
  import opened Prefetch
  import opened Address
  import opened PendCode

  // ---------------------------------------------------------------------------------------------
  // Set-up
  // ---------------------------------------------------------------------------------------------

  /** On entry v_tid_x counts the active lanes, and the lanes of the queue are active. */
  ghost predicate Entry(w: Wave, a: PendArgs) {
    forall l :: 0 <= l < 64 ==> (w.exec[l] ==> VReg(w.vgpr, a.tid, l) == l) && (l < DEPTH ==> w.exec[l])
  }

  /** Every polling lane addresses its own word after the slot base. */
  ghost predicate Addressed(w: Wave, r: PendRegs, base: nat, active: Mask) {
    forall l :: 0 <= l < 64 && active[l] ==> w.Lane64(r.signalAddr, l) == (base + 4 * l) % TWO64
  }

  function LowHalf(m: Mask): (r: Mask)
    ensures forall l :: 0 <= l < 64 ==> r[l] == (l < 32 && m[l])
  {
    seq(64, l requires 0 <= l < 64 => l < 32 && m[l])
  }

  ghost predicate AfterOffsets(r: PendRegs, a: PendArgs, w: Wave, w': Wave) {
    && w' == w.(vgpr := w'.vgpr, pc := w.pc + 1)
    && (forall l :: 0 <= l < 64 && w.exec[l] ==> VReg(w'.vgpr, r.tmp1, l) == 4 * l)
    && (forall v: nat, l :: v != r.tmp1 && 0 <= l < 64 ==> VReg(w'.vgpr, v, l) == VReg(w.vgpr, v, l))
  }

  lemma OffsetsDo(r: PendRegs, a: PendArgs, w: Wave, m: Mem)
    requires Entry(w, a)
    ensures AfterOffsets(r, a, w, Exec(PendSetup(r, a)[0], w, m).0)
  {
    hide Exec, SetLanes, VectorLanes, Shl, LowWord;
    DoVector(VLshlRev, r.tmp1, Imm(2), V(a.tid), NONE, w, m);
    forall l | 0 <= l < 64 && w.exec[l] ensures Shl(VReg(w.vgpr, a.tid, l), 2) == 4 * l { ShlBy2(l); }
  }

  ghost predicate AfterInit(r: PendRegs, a: PendArgs, w: Wave, w': Wave) {
    && w' == w.(vgpr := w'.vgpr, exec := LowHalf(w.exec), pc := w.pc + 4,
                sgpr := w.sgpr[r.execSave := LowWord(LowHalf(w.exec))][r.flag := 0])
    && (forall l :: 0 <= l < 32 && w.exec[l] ==> VReg(w'.vgpr, r.stack, l) == 0)
    && (forall v: nat, l :: v != r.stack && 0 <= l < 64 ==> VReg(w'.vgpr, v, l) == VReg(w.vgpr, v, l))
  }

  lemma InitDoes(r: PendRegs, a: PendArgs, w: Wave, sched: seq<Mem>)
    requires |sched| >= 4
    ensures AfterInit(r, a, w, Through(PendInit(r, a), w, sched, 4))
  {
    hide Through, Exec, SetLanes, VectorLanes, LowWord;
    var w1 := w.(exec := WithHigh(w.exec, 0), pc := w.pc + 1);
    DoMovExecHi(Imm(0), w, sched[0]);
    assert w1.exec == LowHalf(w.exec) by {
      forall k: nat ensures !Bit(0, k) { ZeroBit(k); }
    }
    var w2 := w1.WithScalar(r.execSave, LowWord(w1.exec)).(pc := w.pc + 2);
    DoMov(r.execSave, ExecLo, w1, sched[1]);
    var w3 := w2.(vgpr := SetLanes(w2.vgpr, w2.exec, r.stack, VectorLanes(w2, VMov, Imm(0), NONE, NONE)),
      pc := w.pc + 3);
    DoVector(VMov, r.stack, Imm(0), NONE, NONE, w2, sched[2]);
    DoMov(r.flag, Imm(0), w3, sched[3]);
    Through4(PendInit(r, a), w, sched);
  }

  lemma SetupLayout(code: seq<Instr>, q: nat, r: PendRegs, a: PendArgs)
    requires At(code, q, PendSetup(r, a))
    ensures At(code, q, PendSetup(r, a)[..1])
    ensures At(code, q + 1, AddToBase(r.signalAddr, a.slot, r.tmp1, r.tmp2)) && At(code, q + 4, PendInit(r, a))
  {
    var b := PendSetup(r, a);
    assert forall i :: 0 <= i < 3 ==> b[1 + i] == AddToBase(r.signalAddr, a.slot, r.tmp1, r.tmp2)[i];
    assert forall i :: 0 <= i < 4 ==> b[4 + i] == PendInit(r, a)[i];
  }

  /** The three groups one after the other. */
  lemma SetupGroups(code: seq<Instr>, q: nat, r: PendRegs, a: PendArgs, w: Wave, sched: seq<Mem>)
    requires Separate(r, a) && Entry(w, a) && At(code, q, PendSetup(r, a)) && w.pc == q && |sched| >= 8
    ensures var w1, w4 := Run(code, w, sched, 1), Run(code, w, sched, 4);
      && AfterOffsets(r, a, w, w1)
      && AddedToBase(r.signalAddr, a.slot, r.tmp1, r.tmp2, w1, w4)
      && AfterInit(r, a, w4, Run(code, w, sched, 8)) && Run(code, w, sched, 8).pc == q + 8
  {
    hide Run, Through, Exec, PendSetup, AfterOffsets, AddedToBase, AfterInit, At;
    SetupLayout(code, q, r, a);
    FirstOffset(code, q, r, a, w, sched);
    var w1 := Run(code, w, sched, 1);
    RunStraight(code, q + 1, AddToBase(r.signalAddr, a.slot, r.tmp1, r.tmp2), w1, sched[1..], 3);
    AddToBaseDoes(r.signalAddr, a.slot, r.tmp1, r.tmp2, w1, sched[1..]);
    RunOn(code, w, sched, 1, 3);
    var w4 := Run(code, w, sched, 4);
    RunStraight(code, q + 4, PendInit(r, a), w4, sched[4..], 4);
    InitDoes(r, a, w4, sched[4..]);
    RunOn(code, w, sched, 4, 4);
  }

  lemma FirstOffset(code: seq<Instr>, q: nat, r: PendRegs, a: PendArgs, w: Wave, sched: seq<Mem>)
    requires Entry(w, a) && At(code, q, PendSetup(r, a)[..1]) && w.pc == q && |sched| >= 8
    ensures AfterOffsets(r, a, w, Run(code, w, sched, 1)) && Run(code, w, sched, 1).pc == q + 1
  {
    hide Run, Through, Exec, AfterOffsets;
    var b := PendSetup(r, a)[..1];
    RunStraight(code, q, b, w, sched, 1);
    Through1(b, w, sched);
    OffsetsDo(r, a, w, sched[0]);
  }

  /** The set-up leaves the empty filter, with lane l of the lower half polling word l after the base. */
  lemma {:induction false} SetupRuns(code: seq<Instr>, q: nat, r: PendRegs, a: PendArgs, w: Wave, sched: seq<Mem>)
    requires Separate(r, a) && Entry(w, a) && At(code, q, PendSetup(r, a)) && w.pc == q && |sched| >= 8
    ensures var w' := Run(code, w, sched, 8);
      var active := LowHalf(w.exec);
      && w'.pc == q + 8 && Carries(w', r, a, active, START)
      && Addressed(w', r, w.Scalar64(a.slot), active) && w'.Scalar64(a.slot) == w.Scalar64(a.slot)
  {
    hide Run, At, PendSetup, AfterOffsets, AddedToBase, AfterInit, Carries, Addressed;
    SetupGroups(code, q, r, a, w, sched);
    var w1, w4, w' := Run(code, w, sched, 1), Run(code, w, sched, 4), Run(code, w, sched, 8);
    SetupCarries(r, a, w, w1, w4, w');
    SetupAddresses(r, a, w, w1, w4, w');
  }

  lemma SetupCarries(r: PendRegs, a: PendArgs, w: Wave, w1: Wave, w4: Wave, w': Wave)
    requires Separate(r, a) && Entry(w, a) && AfterOffsets(r, a, w, w1)
    requires AddedToBase(r.signalAddr, a.slot, r.tmp1, r.tmp2, w1, w4) && AfterInit(r, a, w4, w')
    ensures Carries(w', r, a, LowHalf(w.exec), START)
  {
    hide LowWord, Wave.Lane64, Wave.Scalar64;
    forall l | 0 <= l < 32 ensures Bit(LowWord(LowHalf(w.exec)), l) == LowHalf(w.exec)[l] {
      LowWordBit(LowHalf(w.exec), l);
    }
    assert forall i :: 0 <= i < DEPTH ==> START.window[i] == 0;
  }

  lemma SetupAddresses(r: PendRegs, a: PendArgs, w: Wave, w1: Wave, w4: Wave, w': Wave)
    requires Separate(r, a) && AfterOffsets(r, a, w, w1)
    requires AddedToBase(r.signalAddr, a.slot, r.tmp1, r.tmp2, w1, w4) && AfterInit(r, a, w4, w')
    ensures Addressed(w', r, w.Scalar64(a.slot), LowHalf(w.exec)) && w'.Scalar64(a.slot) == w.Scalar64(a.slot)
  {
    hide LowWord;
    forall l | 0 <= l < 64 && LowHalf(w.exec)[l]
      ensures w'.Lane64(r.signalAddr, l) == (w.Scalar64(a.slot) + 4 * l) % TWO64
    {
      assert w4.Lane64(r.signalAddr, l) == (w1.Scalar64(a.slot) + VReg(w1.vgpr, r.tmp1, l)) % TWO64;
    }
  }

  // ---------------------------------------------------------------------------------------------
  // Turns
  // ---------------------------------------------------------------------------------------------

  /** What a poll finds in memory: lane l reads the word at base + 4 l + 4 signal_offset. */
  function PollAt(base: nat, signalOffset: nat, active: Mask, m: Mem): Poll {
    Poll(active, seq(64, l requires 0 <= l < 64 => ReadMem(m, Effective((base + 4 * l) % TWO64, 4 * signalOffset))))
  }

  /** Between two heads everything the loop carries is the same: what the caller's code must respect. */
  ghost predicate Kept(w: Wave, b: Wave, r: PendRegs, a: PendArgs, active: Mask) {
    && SReg(b.sgpr, r.flag) == SReg(w.sgpr, r.flag)
    && SReg(b.sgpr, r.execSave) == SReg(w.sgpr, r.execSave)
    && b.Scalar64(a.slot) == w.Scalar64(a.slot)
    && (forall l :: 0 <= l < DEPTH ==> VReg(b.vgpr, r.stack, l) == VReg(w.vgpr, r.stack, l))
    && (forall l :: 0 <= l < DEPTH ==> VReg(b.vgpr, a.tid, l) == VReg(w.vgpr, a.tid, l))
    && (forall l :: 0 <= l < 64 && active[l] ==> b.Lane64(r.signalAddr, l) == w.Lane64(r.signalAddr, l))
    && (forall l :: 32 <= l < 64 ==> !b.exec[l])
  }

  ghost predicate AtHead(w: Wave, p: nat, r: PendRegs, a: PendArgs, base: nat, active: Mask, f: Fetch) {
    w.pc == p && Carries(w, r, a, active, f) && Addressed(w, r, base, active) && w.Scalar64(a.slot) == base
  }

  /** One turn of the machine from loop head to loop head, sched[k] being the memory step k finds. The
      counter is not zero. Either the select branches back, or the code of the caller is reached, the
      index is in the output register, and the caller's code leaves b at its jump back. */
  ghost predicate TurnStep(code: seq<Instr>, p: nat, r: PendRegs, a: PendArgs, active: Mask,
                           w: Wave, sched: seq<Mem>, o: Outcome, w': Wave) {
    && |sched| >= 27
    && ReadMem(sched[3], Effective(w.Scalar64(a.slot), 4 * a.waveOffset)) != 0
    && var w1 := Run(code, w, sched, 18);
      if w1.pc == p then o == Idle && w' == w1
      else
        var w2 := Run(code, w, sched, 27);
        o == Deliver(SReg(w2.sgpr, a.out)) && w'.pc == p && Kept(w2, w', r, a, active)
  }

  lemma PollSame(f: Fetch, p: Poll, q: Poll)
    requires |f.window| == DEPTH && p.active == q.active
    requires forall l :: 0 <= l < 64 && p.active[l] ==> p.signal[l] == q.signal[l]
    ensures PollBits(f, p) == PollBits(f, q)
  {
    assert Hits(Or(f.flag, 1), p) == Hits(Or(f.flag, 1), q);
  }

  /** A turn of the machine is a poll of the filter. */
  lemma {:induction false} TurnIsPoll(code: seq<Instr>, p: nat, r: PendRegs, a: PendArgs, base: nat, active: Mask,
                                      f: Fetch,
                   w: Wave, sched: seq<Mem>, o: Outcome, w': Wave)
    requires |f.window| == DEPTH && Separate(r, a) && At(code, p, PendLoop(r, a)) && Target(code, a.begin) == p
    requires AtHead(w, p, r, a, base, active, f) && TurnStep(code, p, r, a, active, w, sched, o, w')
    ensures var (f', o') := PollBits(f, PollAt(base, a.signalOffset, active, sched[7]));
      o == o' && AtHead(w', p, r, a, base, active, f')
  {
    hide Run, Target, At, PendLoop, PollBits, Carries, Addressed;
    Turn(code, p, r, a, w, active, f, sched);
    assert PollBits(f, Slots(w, r, a, active, sched[7])) ==
      PollBits(f, PollAt(base, a.signalOffset, active, sched[7])) by {
      SlotsAt(r, a, w, base, active, f, sched[7]);
    }
    var w1, w2 := Run(code, w, sched, 18), Run(code, w, sched, 27);
    if o.Idle? {
      HeadAgain(p, r, a, base, active, w, w1);
    } else {
      HeadAgain(p, r, a, base, active, w, w2);
      KeptHead(p, r, a, base, active, PollBits(f, Slots(w, r, a, active, sched[7])).0, w2, w');
    }
  }

  lemma {:induction false} SlotsAt(r: PendRegs, a: PendArgs, w: Wave, base: nat, active: Mask, f: Fetch, m: Mem)
    requires Addressed(w, r, base, active) && |f.window| == DEPTH
    ensures PollBits(f, Slots(w, r, a, active, m)) == PollBits(f, PollAt(base, a.signalOffset, active, m))
  {
    hide PollBits, LoadLanes, Wave.Lane64;
    PollSame(f, Slots(w, r, a, active, m), PollAt(base, a.signalOffset, active, m));
  }

  lemma HeadAgain(p: nat, r: PendRegs, a: PendArgs, base: nat, active: Mask, w: Wave, w': Wave)
    requires Separate(r, a) && Untouched(w, w', r, a) && Addressed(w, r, base, active) && w.Scalar64(a.slot) == base
    ensures Addressed(w', r, base, active) && w'.Scalar64(a.slot) == base
  {
  }

  lemma KeptHead(p: nat, r: PendRegs, a: PendArgs, base: nat, active: Mask, f: Fetch, w: Wave, b: Wave)
    requires Carries(w, r, a, active, f) && Addressed(w, r, base, active) && w.Scalar64(a.slot) == base
    requires Kept(w, b, r, a, active)
    ensures Carries(b, r, a, active, f) && Addressed(b, r, base, active) && b.Scalar64(a.slot) == base
  {
    hide Wave.Lane64;
  }

  /** The jump f_e_pend_signal emits takes the wave to the loop head. */
  lemma JumpBack(code: seq<Instr>, a: PendArgs, b: Wave, m: Mem)
    requires b.pc < |code| && code[b.pc] == Branch(a.begin)
    ensures Step(code, b, m).0 == b.(pc := Target(code, a.begin))
  {
    hide Exec, Target;
  }

  /** Any number of turns. */
  ghost predicate Turns(code: seq<Instr>, p: nat, r: PendRegs, a: PendArgs, active: Mask,
                        ws: seq<Wave>, scheds: seq<seq<Mem>>, os: seq<Outcome>) {
    && |ws| == |scheds| + 1 && |os| == |scheds|
    && (forall t :: 0 <= t < |scheds| ==> |scheds[t]| >= 27)
    && forall t :: 0 <= t < |os| ==> TurnStep(code, p, r, a, active, ws[t], scheds[t], os[t], ws[t + 1])
  }

  function PollsAt(base: nat, signalOffset: nat, active: Mask, scheds: seq<seq<Mem>>): (ps: seq<Poll>)
    requires forall t :: 0 <= t < |scheds| ==> |scheds[t]| > 7
    ensures |ps| == |scheds| && forall t :: 0 <= t < |ps| ==> ps[t] == PollAt(base, signalOffset, active, scheds[t][7])
  {
    seq(|scheds|, t requires 0 <= t < |scheds| => PollAt(base, signalOffset, active, scheds[t][7]))
  }

  /** Any run of the emitted loop is a run of the filter on what memory held at its slot reads. */
  lemma {:induction false} LoopIsFilter(code: seq<Instr>, p: nat, r: PendRegs, a: PendArgs, base: nat, active: Mask,
                                        f: Fetch, ws: seq<Wave>, scheds: seq<seq<Mem>>, os: seq<Outcome>)
    requires |f.window| == DEPTH && Separate(r, a) && At(code, p, PendLoop(r, a)) && Target(code, a.begin) == p
    requires Turns(code, p, r, a, active, ws, scheds, os) && AtHead(ws[0], p, r, a, base, active, f)
    ensures var (f', os') := Polling(f, PollsAt(base, a.signalOffset, active, scheds));
      os == os' && AtHead(ws[|os|], p, r, a, base, active, f')
  {
    hide At, Target, PendLoop, TurnStep, AtHead, PollAt, PollBits;
    if os != [] {
      var n := |os| - 1;
      LoopIsFilter(code, p, r, a, base, active, f, ws[..n + 1], scheds[..n], os[..n]);
      var polls := PollsAt(base, a.signalOffset, active, scheds);
      assert polls[..n] == PollsAt(base, a.signalOffset, active, scheds[..n]);
      var (g, before) := Polling(f, polls[..n]);
      TurnIsPoll(code, p, r, a, base, active, g, ws[n], scheds[n], os[n], ws[n + 1]);
      assert os == os[..n] + [os[n]];
    }
  }

  /** The emitted prefetch loop, end to end. Whatever the other waves write and whenever, the indices it
      hands to the caller's code are those the reference picks from the slots: any nine in a row are
      distinct, none is 0, each was in a polled slot when the slots were read. */
  lemma {:induction false} PrefetchLoop(code: seq<Instr>, q: nat, r: PendRegs, a: PendArgs, w: Wave, setup: seq<Mem>,
                     ws: seq<Wave>, scheds: seq<seq<Mem>>, os: seq<Outcome>)
    requires Separate(r, a) && Entry(w, a) && w.pc == q && |setup| >= 8
    requires At(code, q, PendSetup(r, a)) && At(code, q + 8, PendLoop(r, a)) && Target(code, a.begin) == q + 8
    requires Turns(code, q + 8, r, a, LowHalf(w.exec), ws, scheds, os) && ws[0] == Run(code, w, setup, 8)
    ensures var polls := PollsAt(w.Scalar64(a.slot), a.signalOffset, LowHalf(w.exec), scheds);
      os == Polling(START, polls).1 && FollowsReference(polls, os)
  {
    hide At, Target, Run, PendSetup, PendLoop, TurnStep, PollsAt, Polling, FollowsReference, Carries, Addressed, START,
         Represents, Wave.Scalar64, LowHalf, Separate, Entry;
    SetupRuns(code, q, r, a, w, setup);
    StartLength();
    LoopIsFilter(code, q + 8, r, a, w.Scalar64(a.slot), LowHalf(w.exec), START, ws, scheds, os);
    EveryRun(PollsAt(w.Scalar64(a.slot), a.signalOffset, LowHalf(w.exec), scheds));
  }

  lemma StartLength()
    ensures |START.window| == DEPTH
  {
  }

  // ---------------------------------------------------------------------------------------------
  // Slots that no longer change
  // ---------------------------------------------------------------------------------------------

  /** Two polls that differ in lanes that do not poll only. */
  ghost predicate SamePoll(p: Poll, q: Poll) {
    p.active == q.active && forall l :: 0 <= l < 64 && p.active[l] ==> p.signal[l] == q.signal[l]
  }

  lemma {:induction false} PollingSame(f: Fetch, ps: seq<Poll>, qs: seq<Poll>)
    requires |f.window| == DEPTH && |ps| == |qs| && forall t :: 0 <= t < |ps| ==> SamePoll(ps[t], qs[t])
    ensures Polling(f, ps) == Polling(f, qs)
  {
    if ps != [] {
      hide PollBits;
      var n := |ps| - 1;
      PollingSame(f, ps[..n], qs[..n]);
      PollSame(Polling(f, ps[..n]).0, ps[n], qs[n]);
    }
  }

  /** The queue lanes of a wave. */
  function QueueOf(w: Wave, r: PendRegs): (q: seq<Word>)
    ensures |q| == DEPTH && forall i :: 0 <= i < DEPTH ==> q[i] == VReg(w.vgpr, r.stack, i)
  {
    seq(DEPTH, i requires 0 <= i < DEPTH => VReg(w.vgpr, r.stack, i))
  }

  lemma QueueCarried(w: Wave, p: nat, r: PendRegs, a: PendArgs, base: nat, active: Mask, f: Fetch)
    requires AtHead(w, p, r, a, base, active, f)
    ensures QueueOf(w, r) == f.window
  {
    hide Addressed;
  }

  /** The emitted loop on slots that no longer change from turn m on, whatever else is written: with at
      most eight pending indices it fetches each of them at most once more, all of them end in the queue
      lanes, and no turn after that fetches; with more every turn fetches. */
  lemma {:induction false} EmittedLoopSettles(code: seq<Instr>, q: nat, r: PendRegs, a: PendArgs, w: Wave,
                                              setup: seq<Mem>,
                                              ws: seq<Wave>, scheds: seq<seq<Mem>>, os: seq<Outcome>, m: nat, p: Poll)
    requires Separate(r, a) && Entry(w, a) && w.pc == q && |setup| >= 8
    requires At(code, q, PendSetup(r, a)) && At(code, q + 8, PendLoop(r, a)) && Target(code, a.begin) == q + 8
    requires Turns(code, q + 8, r, a, LowHalf(w.exec), ws, scheds, os) && ws[0] == Run(code, w, setup, 8)
    requires m <= |os| && forall t :: m <= t < |os| ==>
      SamePoll(PollAt(w.Scalar64(a.slot), a.signalOffset, LowHalf(w.exec), scheds[t][7]), p)
    ensures Settles(p, os[m..], QueueOf(ws[|os|], r))
  {
    hide At, Target, Run, PendSetup, PendLoop, TurnStep, Polling, Carries, Addressed, START, Wave.Scalar64, LowHalf,
      Separate,
         Entry, SamePoll, PollAt, Settles;
    var base, active := w.Scalar64(a.slot), LowHalf(w.exec);
    SetupRuns(code, q, r, a, w, setup);
    StartLength();
    LoopIsFilter(code, q + 8, r, a, base, active, START, ws, scheds, os);
    var polls := PollsAt(base, a.signalOffset, active, scheds);
    var n := |os| - m;
    var frozen := polls[..m] + Repeat(p, n);
    forall t | 0 <= t < |os| ensures SamePoll(polls[t], frozen[t]) {
      if t < m { SamePollSelf(polls[t]); }
    }
    PollingSame(START, polls, frozen);
    FrozenLoop(polls[..m], p, n);
    QueueCarried(ws[|os|], q + 8, r, a, base, active, Polling(START, polls).0);
  }

  lemma SamePollSelf(p: Poll)
    ensures SamePoll(p, p)
  {
  }
}

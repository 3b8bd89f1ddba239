/** The caller's code between a delivery and the jump back: which registers it has to leave alone, and
    the turns of a loop with such code in it. */
module PendBody {
  import opened Words
  import opened Isa
  import opened Prefetch
  import opened PendCode
  import opened PendRun

  // ---------------------------------------------------------------------------------------------
  // What the loop carries
  // ---------------------------------------------------------------------------------------------

  function CarriedScalars(r: PendRegs, a: PendArgs): set<nat> {
    {r.flag, r.execSave, a.slot, a.slot + 1}
  }

  function CarriedVectors(r: PendRegs, a: PendArgs): set<nat> {
    {r.stack, a.tid, r.signalAddr, r.signalAddr + 1}
  }

  /** Scalar register d may be overwritten with anything between two heads exactly when the loop does not
      carry it. */
  lemma ScalarIffCarried(r: PendRegs, a: PendArgs, active: Mask, d: nat)
    ensures (forall w: Wave, x: Word :: HighOff(w) ==> Kept(w, w.WithScalar(d, x), r, a, active)) <==>
      d !in CarriedScalars(r, a)
  {
    if d in CarriedScalars(r, a) {
      var w := Wave(0, map[], map[], seq(64, _ => false), seq(64, _ => false), false, 0);
      assert HighOff(w) && !Kept(w, w.WithScalar(d, 1), r, a, active);
    }
  }

  /** The same for vector registers, when lane 0 polls. */
  lemma VectorIffCarried(r: PendRegs, a: PendArgs, active: Mask, d: nat)
    requires active[0]
    ensures (forall w: Wave, v: Lanes ::
      HighOff(w) ==> Kept(w, w.(vgpr := SetLanes(w.vgpr, w.exec, d, v)), r, a, active)) <==> d !in CarriedVectors(r, a)
  {
    if d in CarriedVectors(r, a) {
      var w := Wave(0, map[], map[], seq(64, l => l == 0), seq(64, _ => false), false, 0);
      var v: Lanes := seq(64, _ => 1);
      var w' := w.(vgpr := SetLanes(w.vgpr, w.exec, d, v));
      assert VReg(w'.vgpr, d, 0) == 1 && VReg(w.vgpr, d, 0) == 0;
      assert HighOff(w) && !Kept(w, w', r, a, active);
    }
  }

  /** An instruction that writes none of them, nor exec_hi. */
  predicate Spares(i: Instr, r: PendRegs, a: PendArgs) {
    && !i.Raw? && !i.Directive? && !i.Faulty?
    && ScalarsWritten(i) !! CarriedScalars(r, a) && VectorsWritten(i) !! CarriedVectors(r, a)
    && !(i.SMov? && i.dst.ExecHi?)
  }

  lemma SparedStep(code: seq<Instr>, r: PendRegs, a: PendArgs, active: Mask, w: Wave, m: Mem)
    requires w.pc < |code| && Spares(code[w.pc], r, a) && HighOff(w)
    ensures Kept(w, Step(code, w, m).0, r, a, active)
  {
    hide Step, ScalarsWritten, VectorsWritten, SReg, VReg;
    StepWrites(code, w, m);
  }

  lemma KeptOn(r: PendRegs, a: PendArgs, active: Mask, w: Wave, b: Wave, c: Wave)
    requires Kept(w, b, r, a, active) && Kept(b, c, r, a, active)
    ensures Kept(w, c, r, a, active)
  {
    hide Wave.Scalar64, Wave.Lane64, SReg, VReg;
  }

  lemma KeptSelf(r: PendRegs, a: PendArgs, active: Mask, w: Wave)
    requires HighOff(w)
    ensures Kept(w, w, r, a, active)
  {
  }

  /** The lines the wave is at before each of its first n steps lie in a region of the program. */
  ghost predicate Inside(code: seq<Instr>, w: Wave, sched: seq<Mem>, n: nat, lo: nat, hi: nat)
    requires n <= |sched|
  {
    forall k :: 0 <= k < n ==> lo <= Run(code, w, sched, k).pc < hi
  }

  ghost predicate SparingLines(code: seq<Instr>, lo: nat, hi: nat, r: PendRegs, a: PendArgs) {
    hi <= |code| && forall i :: lo <= i < hi ==> Spares(code[i], r, a)
  }

  /** However the caller's code branches, what the loop carries is kept. */
  lemma {:induction false} BodyKeeps(code: seq<Instr>, r: PendRegs, a: PendArgs, active: Mask, w: Wave, sched: seq<Mem>,
                                     n: nat, lo: nat, hi: nat)
    requires n <= |sched| && Inside(code, w, sched, n, lo, hi) && SparingLines(code, lo, hi, r, a) && HighOff(w)
    ensures Kept(w, Run(code, w, sched, n), r, a, active)
  {
    hide Step, Spares, Wave.Scalar64, Wave.Lane64;
    if n == 0 {
      KeptSelf(r, a, active, w);
    } else {
      BodyKeeps(code, r, a, active, w, sched, n - 1, lo, hi);
      var b := Run(code, w, sched, n - 1);
      SparedStep(code, r, a, active, b, sched[n - 1]);
      KeptOn(r, a, active, w, b, Run(code, w, sched, n));
    }
  }

  // ---------------------------------------------------------------------------------------------
  // Turns with the caller's code
  // ---------------------------------------------------------------------------------------------

  /** One turn of the machine with m lines of the caller's code, the jump back included, after the loop:
      either back to the head after 18 steps, or through these lines until the head is reached again. */
  ghost predicate BodyTurn(code: seq<Instr>, p: nat, m: nat, a: PendArgs, w: Wave, sched: seq<Mem>, o: Outcome,
                           w': Wave) {
    && |sched| >= 27
    && ReadMem(sched[3], Effective(w.Scalar64(a.slot), 4 * a.waveOffset)) != 0
    && var w1 := Run(code, w, sched, 18);
      if w1.pc == p then o == Idle && w' == w1
      else
        var w2 := Run(code, w, sched, 27);
        && o == Deliver(SReg(w2.sgpr, a.out)) && w' == Run(code, w, sched, |sched|) && w'.pc == p
        && Inside(code, w2, sched[27..], |sched| - 27, p + 27, p + 27 + m)
  }

  lemma {:induction false} BodyTurnIsTurn(code: seq<Instr>, p: nat, m: nat, r: PendRegs, a: PendArgs, base: nat,
                                          active: Mask, f: Fetch, w: Wave, sched: seq<Mem>, o: Outcome, w': Wave)
    requires Separate(r, a) && At(code, p, PendLoop(r, a)) && Target(code, a.begin) == p
    requires SparingLines(code, p + 27, p + 27 + m, r, a)
    requires AtHead(w, p, r, a, base, active, f) && BodyTurn(code, p, m, a, w, sched, o, w')
    ensures TurnStep(code, p, r, a, active, w, sched, o, w')
  {
    hide Run, Target, At, PendLoop, PollBits, Inside, SparingLines, Kept, Untouched, Slots;
    Turn(code, p, r, a, w, active, f, sched);
    if o.Deliver? {
      var w2 := Run(code, w, sched, 27);
      RunOn(code, w, sched, 27, |sched| - 27);
      BodyKeeps(code, r, a, active, w2, sched[27..], |sched| - 27, p + 27, p + 27 + m);
    }
  }

  /** Any number of them. */
  ghost predicate BodyTurns(code: seq<Instr>, p: nat, m: nat, a: PendArgs, ws: seq<Wave>, scheds: seq<seq<Mem>>,
                            os: seq<Outcome>) {
    && |ws| == |scheds| + 1 && |os| == |scheds|
    && (forall t :: 0 <= t < |scheds| ==> |scheds[t]| >= 27)
    && forall t :: 0 <= t < |os| ==> BodyTurn(code, p, m, a, ws[t], scheds[t], os[t], ws[t + 1])
  }

  /** The code of the caller meets what Turns asks of it. */
  lemma {:induction false} BodyTurnsAreTurns(code: seq<Instr>, p: nat, m: nat, r: PendRegs, a: PendArgs, base: nat,
                                             active: Mask, f: Fetch,
                                             ws: seq<Wave>, scheds: seq<seq<Mem>>, os: seq<Outcome>)
    requires |f.window| == DEPTH && Separate(r, a) && At(code, p, PendLoop(r, a)) && Target(code, a.begin) == p
    requires SparingLines(code, p + 27, p + 27 + m, r, a)
    requires BodyTurns(code, p, m, a, ws, scheds, os) && AtHead(ws[0], p, r, a, base, active, f)
    ensures Turns(code, p, r, a, active, ws, scheds, os)
  {
    hide At, Target, PendLoop, TurnStep, AtHead, PollAt, PollBits, Polling, SparingLines, BodyTurn;
    if os != [] {
      var n := |os| - 1;
      BodyTurnsAreTurns(code, p, m, r, a, base, active, f, ws[..n + 1], scheds[..n], os[..n]);
      LoopIsFilter(code, p, r, a, base, active, f, ws[..n + 1], scheds[..n], os[..n]);
      var g := Polling(f, PollsAt(base, a.signalOffset, active, scheds[..n])).0;
      assert |g.window| == DEPTH && AtHead(ws[n], p, r, a, base, active, g);
      BodyTurnIsTurn(code, p, m, r, a, base, active, g, ws[n], scheds[n], os[n], ws[n + 1]);
    }
  }

  /** Straight code, with the jump f_e_pend_signal emits behind it, always comes back to the head. */
  lemma {:induction false} StraightReturns(code: seq<Instr>, p: nat, a: PendArgs, block: seq<Instr>, w: Wave,
                                           sched: seq<Mem>)
    requires At(code, p, block + [Branch(a.begin)]) && Straight(block) && w.pc == p && |sched| == |block| + 1
    ensures Run(code, w, sched, |sched|).pc == Target(code, a.begin)
    ensures Inside(code, w, sched, |sched|, p, p + |sched|)
  {
    hide Target, Through, Step;
    var n := |block|;
    assert At(code, p, block) by {
      PartAt(code, p, block + [Branch(a.begin)], 0, n);
      assert (block + [Branch(a.begin)])[0..n] == block;
    }
    forall k | 0 <= k <= n ensures Run(code, w, sched, k).pc == p + k {
      RunStraight(code, p, block, w, sched, k);
    }
    assert code[p + n] == (block + [Branch(a.begin)])[n];
    JumpBack(code, a, Run(code, w, sched, n), sched[n]);
  }

  /** So a turn with straight code is what the machine does, and nothing has to be asked of where it ends. */
  lemma {:induction false} StraightTurn(code: seq<Instr>, p: nat, r: PendRegs, a: PendArgs, base: nat, active: Mask,
                                        f: Fetch, block: seq<Instr>, w: Wave, sched: seq<Mem>)
    returns (o: Outcome, w': Wave)
    requires Separate(r, a) && At(code, p, PendLoop(r, a)) && Target(code, a.begin) == p
    requires At(code, p + 27, block + [Branch(a.begin)]) && Straight(block) && |sched| == 27 + |block| + 1
    requires AtHead(w, p, r, a, base, active, f)
    requires ReadMem(sched[3], Effective(w.Scalar64(a.slot), 4 * a.waveOffset)) != 0
    ensures BodyTurn(code, p, |block| + 1, a, w, sched, o, w')
  {
    hide Run, Target, At, PendLoop, PollBits, Inside, Carries, Untouched, Slots;
    Turn(code, p, r, a, w, active, f, sched);
    var w1, w2 := Run(code, w, sched, 18), Run(code, w, sched, 27);
    if w1.pc == p {
      o, w' := Idle, w1;
    } else {
      RunOn(code, w, sched, 27, |sched| - 27);
      StraightReturns(code, p + 27, a, block, w2, sched[27..]);
      o, w' := Deliver(SReg(w2.sgpr, a.out)), Run(code, w, sched, |sched|);
    }
  }
}

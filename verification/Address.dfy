/** The three instructions the writer uses to add a vector register to a 64-bit scalar base. */
module Address {
  import opened Words
  import opened Isa

  const NONE := Imm(0)

  function AddToBase(addr: nat, base: nat, x: nat, hi: nat): seq<Instr> {
    [VAlu(VMov, hi, S(base + 1), NONE, NONE),
     VAddCo(addr, S(base), V(x)),
     VAddcCo(addr + 1, Imm(0), V(hi))]
  }

  /** In every active lane addr holds the 64-bit sum; only addr, hi and the carries changed. */
  ghost predicate AddedToBase(addr: nat, base: nat, x: nat, hi: nat, w: Wave, w': Wave) {
    && w' == w.(vgpr := w'.vgpr, vcc := w'.vcc, pc := w.pc + 3)
    && (forall l :: 0 <= l < 64 && w.exec[l] ==>
      w'.Lane64(addr, l) == (w.Scalar64(base) + VReg(w.vgpr, x, l)) % TWO64)
    && (forall v: nat, l :: v !in {addr, addr + 1, hi} && 0 <= l < 64 ==> VReg(w'.vgpr, v, l) == VReg(w.vgpr, v, l))
  }

  function HighCopied(base: nat, hi: nat, w: Wave): Wave {
    w.(vgpr := SetLanes(w.vgpr, w.exec, hi, VectorLanes(w, VMov, S(base + 1), NONE, NONE)), pc := w.pc + 1)
  }

  function LowAdded(addr: nat, base: nat, x: nat, w: Wave): Wave {
    AddLanes(w, addr, S(base), V(x), false).(pc := w.pc + 1)
  }

  function HighAdded(addr: nat, hi: nat, w: Wave): Wave {
    AddLanes(w, addr + 1, Imm(0), V(hi), true).(pc := w.pc + 1)
  }

  lemma AddToBaseRuns(addr: nat, base: nat, x: nat, hi: nat, w: Wave, sched: seq<Mem>)
    requires |sched| >= 3
    ensures Through(AddToBase(addr, base, x, hi), w, sched, 3) ==
      HighAdded(addr, hi, LowAdded(addr, base, x, HighCopied(base, hi, w)))
  {
    hide Through, Exec, SetLanes, AddLanes, VectorLanes;
    var w1 := HighCopied(base, hi, w);
    DoVector(VMov, hi, S(base + 1), NONE, NONE, w, sched[0]);
    DoAddCo(addr, S(base), V(x), w1, sched[1]);
    DoAddCo(addr + 1, Imm(0), V(hi), LowAdded(addr, base, x, w1), sched[2]);
    Through3(AddToBase(addr, base, x, hi), w, sched);
  }

  lemma AddToBaseDoes(addr: nat, base: nat, x: nat, hi: nat, w: Wave, sched: seq<Mem>)
    requires x !in {addr, addr + 1, hi} && hi !in {addr, addr + 1} && |sched| >= 3
    ensures AddedToBase(addr, base, x, hi, w, Through(AddToBase(addr, base, x, hi), w, sched, 3))
  {
    hide Through, AddToBase, SetLanes, AddLanes, VectorLanes, VectorCalc, LowWord, ToWord, Wave.Lane64, Wave.Scalar64,
         Wave.Value;
    AddToBaseRuns(addr, base, x, hi, w, sched);
    var w1 := HighCopied(base, hi, w);
    assert forall l :: 0 <= l < 64 && w.exec[l] ==>
      VReg(w1.vgpr, hi, l) == SReg(w.sgpr, base + 1) by { MovLanes(w, base + 1); }
    var w2 := LowAdded(addr, base, x, w1);
    var w3 := HighAdded(addr, hi, w2);
    forall l | 0 <= l < 64 && w.exec[l]
      ensures w3.Lane64(addr, l) == (w.Scalar64(base) + VReg(w.vgpr, x, l)) % TWO64
    {
      LaneSum(addr, base, x, hi, w, w1, w2, w3, l);
    }
  }

  lemma {:induction false} LaneSum(addr: nat, base: nat, x: nat, hi: nat, w: Wave, w1: Wave, w2: Wave, w3: Wave, l: nat)
    requires x !in {addr, addr + 1, hi} && hi !in {addr, addr + 1} && l < 64
    requires w1.sgpr == w.sgpr && w1.exec == w.exec && w.exec[l]
    requires VReg(w1.vgpr, hi, l) == SReg(w.sgpr, base + 1) && VReg(w1.vgpr, x, l) == VReg(w.vgpr, x, l)
    requires w2 == AddLanes(w1, addr, S(base), V(x), false).(pc := w2.pc)
    requires w3 == AddLanes(w2, addr + 1, Imm(0), V(hi), true).(pc := w3.pc)
    ensures w3.Lane64(addr, l) == (w.Scalar64(base) + VReg(w.vgpr, x, l)) % TWO64
  {
    hide AddLanes, LowWord;
    var lo, top, k := SReg(w.sgpr, base), SReg(w.sgpr, base + 1), VReg(w.vgpr, x, l);
    assert VReg(w2.vgpr, addr, l) == (lo + k) % TWO32 && w2.vcc[l] == (lo + k >= TWO32);
    assert VReg(w2.vgpr, hi, l) == top;
    assert w2.Value(Imm(0), l) == 0;
    assert VReg(w3.vgpr, addr, l) == VReg(w2.vgpr, addr, l);
    AddWithCarry(lo, top, k);
  }

  lemma MovLanes(w: Wave, s: nat)
    ensures forall l :: 0 <= l < 64 ==> VectorLanes(w, VMov, S(s), NONE, NONE)[l] == SReg(w.sgpr, s)
  {
    hide VectorLanes;
  }

  // ---------------------------------------------------------------------------------------------
  // The scalar pair
  // ---------------------------------------------------------------------------------------------

  /** d and d + 1 receive the 64-bit number in s and s + 1 plus an operand. */
  function WideAdd(d: nat, s: nat, o: Opnd): seq<Instr> {
    [SAlu(SAdd, d, S(s), o), SAlu(SAddc, d + 1, S(s + 1), Imm(0))]
  }

  ghost predicate WideSum(d: nat, s: nat, x: Word, w: Wave, w': Wave) {
    && w'.Scalar64(d) == (w.Scalar64(s) + x) % TWO64
    && w' == w.(sgpr := w'.sgpr, scc := w'.scc, pc := w'.pc)
    && forall r: nat :: r !in {d, d + 1} ==> SReg(w'.sgpr, r) == SReg(w.sgpr, r)
  }

  function LowSummed(d: nat, s: nat, x: Word, w: Wave): Wave {
    var lo := SReg(w.sgpr, s);
    w.(sgpr := w.sgpr[d := (lo + x) % TWO32], scc := lo + x >= TWO32, pc := w.pc + 1)
  }

  function HighSummed(d: nat, s: nat, w: Wave): Wave {
    var t := SReg(w.sgpr, s + 1) + (if w.scc then 1 else 0);
    w.(sgpr := w.sgpr[d + 1 := t % TWO32], scc := t >= TWO32, pc := w.pc + 1)
  }

  lemma WideAddRuns(d: nat, s: nat, o: Opnd, w: Wave, sched: seq<Mem>)
    requires |sched| >= 2
    ensures Through(WideAdd(d, s, o), w, sched, 2) == HighSummed(d, s, LowSummed(d, s, w.Value(o, 0), w))
  {
    hide Through, Exec, LowWord, HighWord;
    DoSum(d, S(s), o, w, sched[0]);
    DoSum(d + 1, S(s + 1), Imm(0), LowSummed(d, s, w.Value(o, 0), w), sched[1]);
    Through2(WideAdd(d, s, o), w, sched);
  }

  lemma WideAddDoes(d: nat, s: nat, o: Opnd, w: Wave, sched: seq<Mem>)
    requires |sched| >= 2 && d != s + 1
    ensures WideSum(d, s, w.Value(o, 0), w, Through(WideAdd(d, s, o), w, sched, 2))
  {
    hide Through, Wave.Value, WideAdd;
    WideAddRuns(d, s, o, w, sched);
    AddWithCarry(SReg(w.sgpr, s), SReg(w.sgpr, s + 1), w.Value(o, 0));
  }
}

/** Adding a byte offset to a 64-bit address held in two registers. */
module AddByte {
  import opened Words
  import opened Isa
  import opened Address

  /** An offset the caller gives as a number or in a register. */
  datatype Offset = Literal(value: int) | Register(reg: Opnd)

  predicate Inline(v: int) {
    -16 <= v <= 64
  }

  predicate IsLarge(offset: Offset) {
    offset.Literal? && !Inline(offset.value)
  }

  function Operand(offset: Offset): Opnd {
    match offset
    case Literal(v) => Imm(v)
    case Register(o) => o
  }

  /** On a vector address: the temporary of the large-literal branch is loaded and then not used. */
  function VectorCode(d: nat, offset: Offset, tmp: nat): seq<Instr> {
    VectorLoad(offset, tmp) + VectorAdd(d, offset)
  }

  function VectorLoad(offset: Offset, tmp: nat): seq<Instr> {
    if IsLarge(offset) then [VAlu(VMov, tmp, Imm(offset.value), NONE, NONE)] else []
  }

  function VectorAdd(d: nat, offset: Offset): seq<Instr> {
    [VAddCo(d, V(d), Operand(offset)), VAddcCo(d + 1, Imm(0), V(d + 1))]
  }

  /** On a scalar address. */
  function ScalarCode(d: nat, offset: Offset, tmp: nat): seq<Instr> {
    if IsLarge(offset) then [SMov(S(tmp), Imm(offset.value))] + WideAdd(d, d, S(tmp))
    else WideAdd(d, d, Operand(offset))
  }

  // ---------------------------------------------------------------------------------------------
  // Scalar addresses
  // ---------------------------------------------------------------------------------------------

  /** The scalar address grows by the offset taken as an unsigned word: the 64-bit sum for registers and
      non-negative literals, and 2^32 too much for every negative literal. */
  lemma {:induction false} ScalarAddress(d: nat, offset: Offset, tmp: nat, w: Wave, sched: seq<Mem>)
    requires tmp !in {d, d + 1} && |sched| >= 3
    requires offset.Literal? ==> -0x8000_0000 <= offset.value < 0x8000_0000
    ensures var code := ScalarCode(d, offset, tmp);
      var w' := Through(code, w, sched, |code|);
      && (offset.Register? ==> w'.Scalar64(d) == (w.Scalar64(d) + w.Value(offset.reg, 0)) % TWO64)
      && (offset.Literal? ==> w'.Scalar64(d) == (w.Scalar64(d) + offset.value % TWO32) % TWO64)
      && (offset.Literal? ==>
        (w'.Scalar64(d) == (w.Scalar64(d) + offset.value) % TWO64 <==> offset.value >= 0))
  {
    hide Through, Exec, WideAdd, Wave.Scalar64;
    AddLengths(d, offset);
    if offset.Literal? {
      SignedSum(w.Scalar64(d), offset.value);
      if IsLarge(offset) {
        var a := [SMov(S(tmp), Imm(offset.value))];
        DoMov(tmp, Imm(offset.value), w, sched[0]);
        Through1(a, w, sched);
        var w1 := Through(a, w, sched, 1);
        WideAddDoes(d, d, S(tmp), w1, sched[1..]);
        ThroughBoth(a, WideAdd(d, d, S(tmp)), w, sched);
        assert w1.Scalar64(d) == w.Scalar64(d) by { Unmoved(d, tmp, ToWord(offset.value), w, w1); }
      } else {
        WideAddDoes(d, d, Operand(offset), w, sched);
      }
    } else {
      WideAddDoes(d, d, Operand(offset), w, sched);
    }
  }

  lemma AddLengths(d: nat, offset: Offset)
    ensures forall o :: |WideAdd(d, d, o)| == 2
    ensures |VectorAdd(d, offset)| == 2
  {
  }

  lemma Unmoved(d: nat, tmp: nat, x: Word, w: Wave, w': Wave)
    requires tmp !in {d, d + 1} && w'.sgpr == w.sgpr[tmp := x]
    ensures w'.Scalar64(d) == w.Scalar64(d)
  {
  }

  /** A literal is sign-extended to 32 bits but not to 64. */
  lemma SignedSum(a: nat, v: int)
    requires a < TWO64 && -0x8000_0000 <= v < 0x8000_0000
    ensures (a + ToWord(v)) % TWO64 == (a + v) % TWO64 <==> v >= 0
  {
    if v < 0 {
      assert ToWord(v) == v + TWO32;
      assert (a + v) % TWO64 == if a + v < 0 then a + v + TWO64 else a + v;
      assert (a + v + TWO32) % TWO64 == if a + v + TWO32 < TWO64 then a + v + TWO32 else a + v + TWO32 - TWO64;
    }
  }

  // ---------------------------------------------------------------------------------------------
  // Vector addresses
  // ---------------------------------------------------------------------------------------------

  function LaneLow(d: nat, o: Opnd, w: Wave): Wave {
    AddLanes(w, d, V(d), o, false).(pc := w.pc + 1)
  }

  function LaneHigh(d: nat, w: Wave): Wave {
    AddLanes(w, d + 1, Imm(0), V(d + 1), true).(pc := w.pc + 1)
  }

  lemma VectorAddRuns(d: nat, offset: Offset, w: Wave, sched: seq<Mem>)
    requires |sched| >= 2
    ensures Through(VectorAdd(d, offset), w, sched, 2) == LaneHigh(d, LaneLow(d, Operand(offset), w))
  {
    hide Through, Exec, AddLanes, Operand;
    DoAddCo(d, V(d), Operand(offset), w, sched[0]);
    DoAddCo(d + 1, Imm(0), V(d + 1), LaneLow(d, Operand(offset), w), sched[1]);
    Through2(VectorAdd(d, offset), w, sched);
  }

  lemma {:induction false} LaneAdd(d: nat, o: Opnd, w: Wave, l: nat)
    requires l < 64 && w.exec[l]
    ensures LaneHigh(d, LaneLow(d, o, w)).Lane64(d, l) == (w.Lane64(d, l) + w.Value(o, l)) % TWO64
  {
    hide AddLanes, LowWord;
    var w1 := LaneLow(d, o, w);
    var w2 := LaneHigh(d, w1);
    var lo, top := VReg(w.vgpr, d, l), VReg(w.vgpr, d + 1, l);
    var k := w.Value(o, l);
    hide Wave.Value;
    assert w.Value(V(d), l) == lo && w1.Value(V(d + 1), l) == top &&
      w1.Value(Imm(0), l) == 0 by { Values(d, w, w1, l); }
    assert VReg(w2.vgpr, d, l) == (lo + k) % TWO32;
    AddWithCarry(lo, top, k);
  }

  lemma Values(d: nat, w: Wave, w1: Wave, l: nat)
    requires l < 64
    ensures w.Value(V(d), l) == VReg(w.vgpr, d, l) && w1.Value(V(d + 1), l) == VReg(w1.vgpr, d + 1, l) &&
      w1.Value(Imm(0), l) == 0
  {
  }

  lemma VectorAddDoes(d: nat, offset: Offset, w: Wave, sched: seq<Mem>, l: nat)
    requires |sched| >= 2 && l < 64 && w.exec[l]
    ensures Through(VectorAdd(d, offset), w, sched, 2).Lane64(d, l) ==
      (w.Lane64(d, l) + w.Value(Operand(offset), l)) % TWO64
  {
    hide Through, Wave.Lane64, Wave.Value, LaneHigh, LaneLow, VectorAdd, Operand;
    VectorAddRuns(d, offset, w, sched);
    LaneAdd(d, Operand(offset), w, l);
  }

  lemma LoadKeeps(d: nat, offset: Offset, tmp: nat, w: Wave, sched: seq<Mem>, l: nat)
    requires tmp !in {d, d + 1} && offset != Register(V(tmp)) && |sched| >= 1 && l < 64
    ensures |VectorLoad(offset, tmp)| <= 1
    ensures var w1 := Through(VectorLoad(offset, tmp), w, sched, |VectorLoad(offset, tmp)|);
      w1.exec == w.exec && w1.Lane64(d, l) == w.Lane64(d, l) &&
        w1.Value(Operand(offset), l) == w.Value(Operand(offset), l)
  {
    hide Exec, SetLanes, VectorLanes;
    var b := VectorLoad(offset, tmp);
    if b != [] {
      DoVector(VMov, tmp, Imm(offset.value), NONE, NONE, w, sched[0]);
      Through1(b, w, sched);
    }
  }

  lemma LiteralValue(w: Wave, offset: Offset, l: nat)
    requires offset.Literal? && l < 64
    ensures w.Value(Operand(offset), l) == ToWord(offset.value)
  {
  }

  /** In every active lane the vector address grows by the offset taken as an unsigned word; it is the
      signed sum exactly for the literals that are not negative. */
  lemma {:induction false} VectorAddress(d: nat, offset: Offset, tmp: nat, w: Wave, sched: seq<Mem>, l: nat)
    requires tmp !in {d, d + 1} && offset != Register(V(tmp)) && |sched| >= 3 && l < 64 && w.exec[l]
    requires offset.Literal? ==> -0x8000_0000 <= offset.value < 0x8000_0000
    ensures var code := VectorCode(d, offset, tmp);
      var w' := Through(code, w, sched, |code|);
      && (offset.Register? ==> w'.Lane64(d, l) == (w.Lane64(d, l) + w.Value(offset.reg, l)) % TWO64)
      && (offset.Literal? ==> w'.Lane64(d, l) == (w.Lane64(d, l) + offset.value % TWO32) % TWO64)
      && (offset.Literal? ==>
        (w'.Lane64(d, l) == (w.Lane64(d, l) + offset.value) % TWO64 <==> offset.value >= 0))
  {
    hide Through, Exec, VectorLoad, VectorAdd, Wave.Lane64, Wave.Value, SetLanes, AddLanes;
    AddLengths(d, offset);
    LoadKeeps(d, offset, tmp, w, sched, l);
    var a, b := VectorLoad(offset, tmp), VectorAdd(d, offset);
    ThroughBoth(a, b, w, sched);
    VectorAddDoes(d, offset, Through(a, w, sched, |a|), sched[|a|..], l);
    if offset.Literal? {
      SignedSum(w.Lane64(d, l), offset.value);
      LiteralValue(w, offset, l);
    }
  }

  // ---------------------------------------------------------------------------------------------
  // The branch
  // ---------------------------------------------------------------------------------------------

  /** The instructions can hold literals from -16 to 64 themselves. Exactly the others are first moved to a
      temporary; on a scalar address no addition gets one. */
  lemma LargeLiterals(d: nat, offset: Offset, tmp: nat)
    ensures var moved := offset.Literal? && (offset.value < -16 || offset.value > 64);
      var code, lanes := ScalarCode(d, offset, tmp), VectorCode(d, offset, tmp);
      && |code| == (if moved then 3 else 2) && |lanes| == (if moved then 3 else 2)
      && (moved ==> code[0] == SMov(S(tmp), Imm(offset.value)) && code[1] == SAlu(SAdd, d, S(d), S(tmp)))
      && (moved ==> lanes[0] == VAlu(VMov, tmp, Imm(offset.value), NONE, NONE))
      && (!moved && offset.Literal? ==> code[0] == SAlu(SAdd, d, S(d), Imm(offset.value)))
  {
  }
}

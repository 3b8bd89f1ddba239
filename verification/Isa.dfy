/** The instructions the kernel writer emits, and what they do to a wave of 64 lanes and to memory. */
module Isa {
  import opened Words

  /** An operand as it is printed: a scalar or vector register, a constant, or half a mask. */
  datatype Opnd = S(idx: nat) | V(idx: nat) | Imm(value: int) | ExecLo | ExecHi | VccLo

  datatype ScalarOp = SAdd | SAddc | SSub | SLshl | SLshr | SOr | SBfe

  datatype VectorOp = VMov | VAdd | VAddLshl | VLshlRev | VXor | VAnd

  datatype Instr =
    | SMov(dst: Opnd, a: Opnd)
    | SMov64(d: nat, s: nat)
    | SAlu(sop: ScalarOp, d: nat, a: Opnd, b: Opnd)
    | SBitset(d: nat, at: Opnd, v: bool)
    | SCmpEq(a: Opnd, b: Opnd)
    | SGetreg(d: nat, imm: Word)
    | SLoad(d: nat, base: nat, offset: nat)
    | SStore(s: nat, base: nat, offset: nat)
    | SAtomic(sub: bool, d: nat, base: nat, offset: nat)
    | VAlu(vop: VectorOp, d: nat, a: Opnd, b: Opnd, c: Opnd)
    | VAddCo(d: nat, a: Opnd, b: Opnd)
    | VAddcCo(d: nat, a: Opnd, b: Opnd)
    | VCmpxNe(a: Opnd, b: Opnd)
    | VReadFirst(d: nat, s: nat)
    | VWriteLane(d: nat, a: Opnd, lane: nat)
    | DsBpermute(d: nat, from: nat, s: nat)
    | FlatLoad(d: nat, base: nat, offset: nat)
    | FlatStore(base: nat, s: nat, offset: nat)
    | Pause                       // s_sleep, s_nop, s_waitcnt: no effect on registers or memory
    | Label(name: string)
    | Branch(to: string)
    | BranchIf(scc: bool, to: string)
    | Directive(name: string, values: seq<int>)  // a line that is no instruction
    | Raw(op: string, args: seq<Opnd>)  // a line with operands its operation does not take
    | Faulty(line: Instr, words: string)  // a line that repeats another, with a complaint behind it

  type Mask = m: seq<bool> | |m| == 64 witness seq(64, _ => false)
  type Lanes = v: seq<Word> | |v| == 64 witness seq(64, _ => 0)
  type Mem = map<nat, Word>
  type Sgprs = map<nat, Word>
  type Vgprs = map<nat, Lanes>

  /** Registers never written read as 0. */
  function SReg(f: Sgprs, r: nat): Word {
    if r in f then f[r] else 0
  }

  function VReg(f: Vgprs, r: nat, l: nat): Word
    requires l < 64
  {
    if r in f then f[r][l] else 0
  }

  /** Only the active lanes of one vector register change. */
  function SetLanes(f: Vgprs, exec: Mask, d: nat, v: Lanes): (g: Vgprs)
    ensures forall l :: 0 <= l < 64 ==> VReg(g, d, l) == if exec[l] then v[l] else VReg(f, d, l)
    ensures forall r, l :: r != d && 0 <= l < 64 ==> VReg(g, r, l) == VReg(f, r, l)
  {
    f[d := seq(64, l requires 0 <= l < 64 => if exec[l] then v[l] else VReg(f, d, l))]
  }

  /** One lane changes, active or not. */
  function SetLane(f: Vgprs, d: nat, lane: nat, v: Word): (g: Vgprs)
    requires lane < 64
    ensures forall l :: 0 <= l < 64 ==> VReg(g, d, l) == if l == lane then v else VReg(f, d, l)
    ensures forall r, l :: r != d && 0 <= l < 64 ==> VReg(g, r, l) == VReg(f, r, l)
  {
    f[d := seq(64, l requires 0 <= l < 64 => if l == lane then v else VReg(f, d, l))]
  }

  /** One wave. hwId is the content of the HW_ID register. */
  datatype Wave = Wave(pc: nat, sgpr: Sgprs, vgpr: Vgprs, exec: Mask, vcc: Mask, scc: bool, hwId: Word)
  {
    function Scalar(r: nat): Word {
      SReg(sgpr, r)
    }

    function Lane(r: nat, l: nat): Word
      requires l < 64
    {
      VReg(vgpr, r, l)
    }

    /** The value an operand has in lane l. */
    function Value(o: Opnd, l: nat): Word
      requires l < 64
    {
      match o
      case S(r) => SReg(sgpr, r)
      case V(r) => VReg(vgpr, r, l)
      case Imm(v) => ToWord(v)
      case ExecLo => LowWord(exec)
      case ExecHi => HighWord(exec)
      case VccLo => LowWord(vcc)
    }

    /** The 64-bit number in scalar registers r and r + 1. */
    function Scalar64(r: nat): (n: nat)
      ensures n < TWO64
    {
      SReg(sgpr, r) + TWO32 * SReg(sgpr, r + 1)
    }

    /** The 64-bit number in lane l of vector registers r and r + 1. */
    function Lane64(r: nat, l: nat): (n: nat)
      requires l < 64
      ensures n < TWO64
    {
      VReg(vgpr, r, l) + TWO32 * VReg(vgpr, r + 1, l)
    }

    function WithScalar(d: nat, v: Word): Wave {
      this.(sgpr := sgpr[d := v])
    }
  }

  function LowWord(m: Mask): Word {
    WordOf(m[..32])
  }

  function HighWord(m: Mask): Word {
    WordOf(m[32..])
  }

  function ReadMem(m: Mem, a: nat): Word {
    if a in m then m[a] else 0
  }

  function Effective(base: nat, offset: nat): nat {
    (base + offset) % TWO64
  }

  /** Result and condition code of a scalar instruction. */
  function ScalarCalc(op: ScalarOp, a: Word, b: Word, scc: bool): (Word, bool) {
    match op
    case SAdd => ((a + b) % TWO32, a + b >= TWO32)
    case SAddc => var t := a + b + (if scc then 1 else 0); (t % TWO32, t >= TWO32)
    case SSub => ((a - b) % TWO32, b > a)
    case SLshl => (Shl(a, b), Shl(a, b) != 0)
    case SLshr => (Shr(a, b), Shr(a, b) != 0)
    case SOr => (Or(a, b), Or(a, b) != 0)
    case SBfe => var t := BitField(a, b % 32, b / 0x1_0000 % 0x80); (t, t != 0)
  }

  /** The `width` bits of w that start at bit `low`. */
  function BitField(w: Word, low: nat, width: nat): Word {
    var h := Halve(w, low);
    ModLe(h, Pow2(width));
    h % Pow2(width)
  }

  lemma BitFieldBit(a: Word, low: nat, width: nat, k: nat)
    ensures Bit(BitField(a, low, width), k) == (k < width && Bit(a, low + k))
  {
    HalveBit(a, low, k);
    LowBits(Halve(a, low), width, k);
  }

  lemma ModLe(h: nat, p: nat)
    requires p > 0
    ensures h % p <= h
  {
    if h < p { assert h % p == h; }
  }

  function VectorCalc(op: VectorOp, a: Word, b: Word, c: Word): Word {
    match op
    case VMov => a
    case VAdd => (a + b) % TWO32
    case VAddLshl => Shl((a + b) % TWO32, c)
    case VLshlRev => Shl(b, a)
    case VXor => Xor(a, b)
    case VAnd => And(a, b)
  }

  function VectorLanes(w: Wave, op: VectorOp, a: Opnd, b: Opnd, c: Opnd): (r: Lanes)
    ensures forall l :: 0 <= l < 64 ==> r[l] == VectorCalc(op, w.Value(a, l), w.Value(b, l), w.Value(c, l))
  {
    seq(64, l requires 0 <= l < 64 => VectorCalc(op, w.Value(a, l), w.Value(b, l), w.Value(c, l)))
  }

  function SumLanes(w: Wave, a: Opnd, b: Opnd, carryIn: bool): (r: seq<nat>)
    ensures |r| == 64
    ensures forall l :: 0 <= l < 64 ==>
      r[l] == w.Value(a, l) + w.Value(b, l) + (if carryIn && w.vcc[l] then 1 else 0)
  {
    seq(64, l requires 0 <= l < 64 => w.Value(a, l) + w.Value(b, l) + (if carryIn && w.vcc[l] then 1 else 0))
  }

  /** v_add_co_u32 and v_addc_co_u32: 32-bit sums, the carries go to vcc. */
  function AddLanes(w: Wave, d: nat, a: Opnd, b: Opnd, carryIn: bool): (r: Wave)
    ensures forall l :: 0 <= l < 64 && w.exec[l] ==>
      var t := w.Value(a, l) + w.Value(b, l) + (if carryIn && w.vcc[l] then 1 else 0);
      VReg(r.vgpr, d, l) == t % TWO32 && r.vcc[l] == (t >= TWO32)
    ensures forall x, l :: x != d && 0 <= l < 64 ==> VReg(r.vgpr, x, l) == VReg(w.vgpr, x, l)
    ensures r == w.(vgpr := r.vgpr, vcc := r.vcc)
  {
    var t := SumLanes(w, a, b, carryIn);
    var v: Lanes := seq(64, l requires 0 <= l < 64 => t[l] % TWO32);
    w.(vgpr := SetLanes(w.vgpr, w.exec, d, v), vcc := seq(64, l requires 0 <= l < 64 => w.exec[l] && t[l] >= TWO32))
  }

  function NotEqualMask(w: Wave, a: Opnd, b: Opnd): (m: Mask)
    ensures forall l :: 0 <= l < 64 ==> m[l] == (w.exec[l] && w.Value(a, l) != w.Value(b, l))
  {
    seq(64, l requires 0 <= l < 64 => w.exec[l] && w.Value(a, l) != w.Value(b, l))
  }

  /** The low half of a mask replaced by the bits of x. */
  function WithLow(m: Mask, x: Word): (r: Mask)
    ensures forall l :: 0 <= l < 32 ==> r[l] == Bit(x, l)
    ensures forall l :: 32 <= l < 64 ==> r[l] == m[l]
  {
    seq(64, l requires 0 <= l < 64 => if l < 32 then Bit(x, l) else m[l])
  }

  function WithHigh(m: Mask, x: Word): (r: Mask)
    ensures forall l :: 0 <= l < 32 ==> r[l] == m[l]
    ensures forall l :: 32 <= l < 64 ==> r[l] == Bit(x, l - 32)
  {
    seq(64, l requires 0 <= l < 64 => if l < 32 then m[l] else Bit(x, l - 32))
  }

  /** The lowest set lane of a mask; lane 0 when there is none. */
  function FirstLane(m: Mask): (l: nat)
    ensures l < 64
    ensures m[l] ==> forall k :: 0 <= k < l ==> !m[k]
    ensures !m[l] ==> forall k :: 0 <= k < 64 ==> !m[k]
  {
    var l := SetLaneFrom(m, 0);
    if l == 64 then 0 else l
  }

  /** The lowest set lane from `from` on, or 64. */
  function SetLaneFrom(m: Mask, from: nat): (l: nat)
    requires from <= 64
    ensures from <= l <= 64 && (l < 64 ==> m[l])
    ensures forall k :: from <= k < l ==> !m[k]
    decreases 64 - from
  {
    if from == 64 || m[from] then from else SetLaneFrom(m, from + 1)
  }

  /** The lane a ds_bpermute address selects. */
  function SourceLane(addr: Word): (k: nat)
    ensures k < 64
  {
    addr / 4 % 64
  }

  lemma SourceLaneOf(k: nat)
    requires k < 64
    ensures SourceLane(4 * k) == k
  {
  }

  /** Each active lane receives the selected lane of s, or 0 when that one is inactive. */
  function PermuteLanes(w: Wave, from: nat, s: nat): (r: Lanes)
    ensures forall l :: 0 <= l < 64 ==>
      var k := SourceLane(VReg(w.vgpr, from, l)); r[l] == if w.exec[k] then VReg(w.vgpr, s, k) else 0
  {
    seq(64, l requires 0 <= l < 64 =>
      var k := SourceLane(VReg(w.vgpr, from, l)); if w.exec[k] then VReg(w.vgpr, s, k) else 0)
  }

  function LoadLanes(w: Wave, m: Mem, base: nat, offset: nat): (r: Lanes)
    ensures forall l :: 0 <= l < 64 ==> r[l] == ReadMem(m, Effective(w.Lane64(base, l), offset))
  {
    seq(64, l requires 0 <= l < 64 => ReadMem(m, Effective(w.Lane64(base, l), offset)))
  }

  /** The active lanes from lane l on store, in lane order. */
  function StoreLanes(w: Wave, m: Mem, base: nat, s: nat, offset: nat, l: nat): Mem
    requires l <= 64
    decreases 64 - l
  {
    if l == 64 then m
    else
      StoreLanes(w, if w.exec[l] then m[Effective(w.Lane64(base, l), offset) := w.Lane(s, l)] else m,
                 base, s, offset, l + 1)
  }

  /** The s_getreg_b32 immediate names a register, a first bit and a size. Only HW_ID (4) is modelled. */
  function HwReg(w: Wave, imm: Word): Word {
    if imm % 64 == 4 then BitField(w.hwId, imm / 64 % 32, imm / 2048 % 32 + 1) else 0
  }

  /** What an instruction other than a branch does to registers and memory. */
  function Effect(i: Instr, w: Wave, m: Mem): (Wave, Mem) {
    match i
    case SMov(S(d), a) => (w.WithScalar(d, w.Value(a, 0)), m)
    case SMov(ExecLo, a) => (w.(exec := WithLow(w.exec, w.Value(a, 0))), m)
    case SMov(ExecHi, a) => (w.(exec := WithHigh(w.exec, w.Value(a, 0))), m)
    case SMov64(d, s) => (w.(sgpr := w.sgpr[d := w.Scalar(s)][d + 1 := w.Scalar(s + 1)]), m)
    case SAlu(op, d, a, b) =>
      var (v, c) := ScalarCalc(op, w.Value(a, 0), w.Value(b, 0), w.scc);
      (w.WithScalar(d, v).(scc := c), m)
    case SBitset(d, at, v) => (w.WithScalar(d, WithBit(w.Scalar(d), w.Value(at, 0), v)), m)
    case SCmpEq(a, b) => (w.(scc := w.Value(a, 0) == w.Value(b, 0)), m)
    case SGetreg(d, imm) => (w.WithScalar(d, HwReg(w, imm)), m)
    case SLoad(d, base, o) => (w.WithScalar(d, ReadMem(m, Effective(w.Scalar64(base), o))), m)
    case SStore(s, base, o) => (w, m[Effective(w.Scalar64(base), o) := w.Scalar(s)])
    case SAtomic(sub, d, base, o) =>
      var a := Effective(w.Scalar64(base), o);
      var was := ReadMem(m, a);
      (w.WithScalar(d, was), m[a := ToWord(if sub then was - w.Scalar(d) else was + w.Scalar(d))])
    case VAlu(op, d, a, b, c) => (w.(vgpr := SetLanes(w.vgpr, w.exec, d, VectorLanes(w, op, a, b, c))), m)
    case VAddCo(d, a, b) => (AddLanes(w, d, a, b, false), m)
    case VAddcCo(d, a, b) => (AddLanes(w, d, a, b, true), m)
    case VCmpxNe(a, b) =>
      var k := NotEqualMask(w, a, b);
      (w.(vcc := k, exec := k), m)
    case VReadFirst(d, s) => (w.WithScalar(d, w.Lane(s, FirstLane(w.exec))), m)
    case VWriteLane(d, a, l) =>
      (if l < 64 then w.(vgpr := SetLane(w.vgpr, d, l, w.Value(a, 0))) else w, m)
    case DsBpermute(d, from, s) => (w.(vgpr := SetLanes(w.vgpr, w.exec, d, PermuteLanes(w, from, s))), m)
    case FlatLoad(d, base, o) => (w.(vgpr := SetLanes(w.vgpr, w.exec, d, LoadLanes(w, m, base, o))), m)
    case FlatStore(base, s, o) => (w, StoreLanes(w, m, base, s, o, 0))
    case _ => (w, m)
  }

  function Exec(i: Instr, w: Wave, m: Mem): (Wave, Mem) {
    var (w', m') := Effect(i, w, m);
    (w'.(pc := w.pc + 1), m')
  }

  /** The registers an instruction line prints, a pair as its two registers. */
  function Printed(i: Instr): seq<Opnd> {
    match i
    case SMov(dst, a) => [dst, a]
    case SMov64(d, s) => [S(d), S(d + 1), S(s), S(s + 1)]
    case SAlu(_, d, a, b) => [S(d), a, b]
    case SBitset(d, at, _) => [S(d), at]
    case SCmpEq(a, b) => [a, b]
    case SGetreg(d, _) => [S(d)]
    case SLoad(d, base, _) => [S(d), S(base), S(base + 1)]
    case SStore(s, base, _) => [S(s), S(base), S(base + 1)]
    case SAtomic(_, d, base, _) => [S(d), S(base), S(base + 1)]
    case VAlu(_, d, a, b, c) => [V(d), a, b, c]
    case VAddCo(d, a, b) => [V(d), a, b]
    case VAddcCo(d, a, b) => [V(d), a, b]
    case VCmpxNe(a, b) => [a, b]
    case VReadFirst(d, s) => [S(d), V(s)]
    case VWriteLane(d, a, _) => [V(d), a]
    case DsBpermute(d, from, s) => [V(d), V(from), V(s)]
    case FlatLoad(d, base, _) => [V(d), V(base), V(base + 1)]
    case FlatStore(base, s, _) => [V(base), V(base + 1), V(s)]
    case Raw(_, args) => args
    case Faulty(line, _) => Printed(line)
    case _ => []
  }

  // One lemma an instruction, so that proofs about emitted code need not look at all of them at once.

  lemma DoPause(w: Wave, m: Mem)
    ensures Exec(Pause, w, m) == (w.(pc := w.pc + 1), m)
  {}

  lemma DoLabel(name: string, w: Wave, m: Mem)
    ensures Exec(Label(name), w, m) == (w.(pc := w.pc + 1), m)
  {}

  lemma DoMov(d: nat, a: Opnd, w: Wave, m: Mem)
    ensures Exec(SMov(S(d), a), w, m) == (w.WithScalar(d, w.Value(a, 0)).(pc := w.pc + 1), m)
  {}

  lemma DoMovExecLo(a: Opnd, w: Wave, m: Mem)
    ensures Exec(SMov(ExecLo, a), w, m) == (w.(exec := WithLow(w.exec, w.Value(a, 0)), pc := w.pc + 1), m)
  {}

  lemma DoMovExecHi(a: Opnd, w: Wave, m: Mem)
    ensures Exec(SMov(ExecHi, a), w, m) == (w.(exec := WithHigh(w.exec, w.Value(a, 0)), pc := w.pc + 1), m)
  {}

  lemma DoScalar(op: ScalarOp, d: nat, a: Opnd, b: Opnd, w: Wave, m: Mem)
    ensures var (v, c) := ScalarCalc(op, w.Value(a, 0), w.Value(b, 0), w.scc);
      Exec(SAlu(op, d, a, b), w, m) == (w.WithScalar(d, v).(scc := c, pc := w.pc + 1), m)
  {}

  lemma DoBitset(d: nat, at: Opnd, v: bool, w: Wave, m: Mem)
    ensures Exec(SBitset(d, at, v), w, m) ==
      (w.WithScalar(d, WithBit(w.Scalar(d), w.Value(at, 0), v)).(pc := w.pc + 1), m)
  {}

  lemma DoCmpEq(a: Opnd, b: Opnd, w: Wave, m: Mem)
    ensures Exec(SCmpEq(a, b), w, m) == (w.(scc := w.Value(a, 0) == w.Value(b, 0), pc := w.pc + 1), m)
  {}

  lemma DoLoad(d: nat, base: nat, o: nat, w: Wave, m: Mem)
    ensures Exec(SLoad(d, base, o), w, m) ==
      (w.WithScalar(d, ReadMem(m, Effective(w.Scalar64(base), o))).(pc := w.pc + 1), m)
  {}

  lemma DoVector(op: VectorOp, d: nat, a: Opnd, b: Opnd, c: Opnd, w: Wave, m: Mem)
    ensures Exec(VAlu(op, d, a, b, c), w, m) ==
      (w.(vgpr := SetLanes(w.vgpr, w.exec, d, VectorLanes(w, op, a, b, c))).(pc := w.pc + 1), m)
  {}

  lemma DoAddCo(d: nat, a: Opnd, b: Opnd, w: Wave, m: Mem)
    ensures Exec(VAddCo(d, a, b), w, m) == (AddLanes(w, d, a, b, false).(pc := w.pc + 1), m)
    ensures Exec(VAddcCo(d, a, b), w, m) == (AddLanes(w, d, a, b, true).(pc := w.pc + 1), m)
  {}

  lemma DoCmpxNe(a: Opnd, b: Opnd, w: Wave, m: Mem)
    ensures var k := NotEqualMask(w, a, b);
      Exec(VCmpxNe(a, b), w, m) == (w.(vcc := k, exec := k, pc := w.pc + 1), m)
  {}

  lemma DoReadFirst(d: nat, s: nat, w: Wave, m: Mem)
    ensures Exec(VReadFirst(d, s), w, m) == (w.WithScalar(d, w.Lane(s, FirstLane(w.exec))).(pc := w.pc + 1), m)
  {}

  lemma DoWriteLane(d: nat, a: Opnd, l: nat, w: Wave, m: Mem)
    requires l < 64
    ensures Exec(VWriteLane(d, a, l), w, m) == (w.(vgpr := SetLane(w.vgpr, d, l, w.Value(a, 0)), pc := w.pc + 1), m)
  {
    hide SetLane;
  }

  lemma DoPermute(d: nat, from: nat, s: nat, w: Wave, m: Mem)
    ensures Exec(DsBpermute(d, from, s), w, m) ==
      (w.(vgpr := SetLanes(w.vgpr, w.exec, d, PermuteLanes(w, from, s))).(pc := w.pc + 1), m)
  {}

  lemma DoFlatLoad(d: nat, base: nat, o: nat, w: Wave, m: Mem)
    ensures Exec(FlatLoad(d, base, o), w, m) ==
      (w.(vgpr := SetLanes(w.vgpr, w.exec, d, LoadLanes(w, m, base, o))).(pc := w.pc + 1), m)
  {}

  lemma DoMov64(d: nat, a: nat, w: Wave, m: Mem)
    ensures Exec(SMov64(d, a), w, m) ==
      (w.(sgpr := w.sgpr[d := w.Scalar(a)][d + 1 := w.Scalar(a + 1)], pc := w.pc + 1), m)
  {}

  lemma DoGetreg(d: nat, imm: Word, w: Wave, m: Mem)
    ensures Exec(SGetreg(d, imm), w, m) == (w.WithScalar(d, HwReg(w, imm)).(pc := w.pc + 1), m)
  {}

  lemma DoStore(s: nat, base: nat, o: nat, w: Wave, m: Mem)
    ensures Exec(SStore(s, base, o), w, m) == (w.(pc := w.pc + 1), m[Effective(w.Scalar64(base), o) := w.Scalar(s)])
  {}

  lemma DoAtomic(sub: bool, d: nat, base: nat, o: nat, w: Wave, m: Mem)
    ensures var a := Effective(w.Scalar64(base), o);
      Exec(SAtomic(sub, d, base, o), w, m) ==
      (w.WithScalar(d, ReadMem(m, a)).(pc := w.pc + 1),
       m[a := ToWord(if sub then ReadMem(m, a) - w.Scalar(d) else ReadMem(m, a) + w.Scalar(d))])
  {}

  lemma DoFlatStore(base: nat, s: nat, o: nat, w: Wave, m: Mem)
    ensures Exec(FlatStore(base, s, o), w, m) == (w.(pc := w.pc + 1), StoreLanes(w, m, base, s, o, 0))
  {}

  lemma DoSum(d: nat, a: Opnd, b: Opnd, w: Wave, m: Mem)
    ensures var t := w.Value(a, 0) + w.Value(b, 0);
      Exec(SAlu(SAdd, d, a, b), w, m).0 == w.WithScalar(d, t % TWO32).(scc := t >= TWO32, pc := w.pc + 1)
    ensures var t := w.Value(a, 0) + w.Value(b, 0) + (if w.scc then 1 else 0);
      Exec(SAlu(SAddc, d, a, b), w, m).0 == w.WithScalar(d, t % TWO32).(scc := t >= TWO32, pc := w.pc + 1)
  {
    hide Wave.Value;
    DoScalar(SAdd, d, a, b, w, m);
    DoScalar(SAddc, d, a, b, w, m);
  }

  lemma DoDifference(d: nat, a: Opnd, b: Opnd, w: Wave, m: Mem)
    ensures var x, y := w.Value(a, 0), w.Value(b, 0);
      Exec(SAlu(SSub, d, a, b), w, m).0 == w.WithScalar(d, (x - y) % TWO32).(scc := y > x, pc := w.pc + 1)
  {
    hide Wave.Value;
    DoScalar(SSub, d, a, b, w, m);
  }

  lemma DoShift(d: nat, a: Opnd, b: Opnd, w: Wave, m: Mem)
    ensures var v := Shl(w.Value(a, 0), w.Value(b, 0));
      Exec(SAlu(SLshl, d, a, b), w, m).0 == w.WithScalar(d, v).(scc := v != 0, pc := w.pc + 1)
    ensures var v := Shr(w.Value(a, 0), w.Value(b, 0));
      Exec(SAlu(SLshr, d, a, b), w, m).0 == w.WithScalar(d, v).(scc := v != 0, pc := w.pc + 1)
  {
    hide Wave.Value, Shl, Shr;
    DoScalar(SLshl, d, a, b, w, m);
    DoScalar(SLshr, d, a, b, w, m);
  }

  lemma DoOr(d: nat, a: Opnd, b: Opnd, w: Wave, m: Mem)
    ensures var v := Or(w.Value(a, 0), w.Value(b, 0));
      Exec(SAlu(SOr, d, a, b), w, m).0 == w.WithScalar(d, v).(scc := v != 0, pc := w.pc + 1)
  {
    hide Wave.Value, Or;
    DoScalar(SOr, d, a, b, w, m);
  }

  lemma DoField(d: nat, a: Opnd, b: Opnd, w: Wave, m: Mem)
    ensures var y := w.Value(b, 0);
      var v := BitField(w.Value(a, 0), y % 32, y / 0x1_0000 % 0x80);
      Exec(SAlu(SBfe, d, a, b), w, m).0 == w.WithScalar(d, v).(scc := v != 0, pc := w.pc + 1)
  {
    hide Wave.Value, BitField;
    DoScalar(SBfe, d, a, b, w, m);
  }

  /** The first line of the program that carries a label. */
  function Target(code: seq<Instr>, name: string): (t: nat)
    ensures t <= |code|
  {
    if code == [] || code[0] == Label(name) then 0 else 1 + Target(code[1..], name)
  }

  /** A label no earlier line carries is found where it stands. */
  lemma {:induction false} LabelFound(code: seq<Instr>, name: string, p: nat)
    requires p < |code| && code[p] == Label(name) && forall i :: 0 <= i < p ==> code[i] != Label(name)
    ensures Target(code, name) == p
    decreases p
  {
    if p > 0 { LabelFound(code[1..], name, p - 1); }
  }

  /** One step of a wave on the memory it finds. */
  function Step(code: seq<Instr>, w: Wave, m: Mem): (Wave, Mem) {
    if w.pc >= |code| then (w, m)
    else
      match code[w.pc]
      case Branch(t) => (w.(pc := Target(code, t)), m)
      case BranchIf(c, t) => (if w.scc == c then w.(pc := Target(code, t)) else w.(pc := w.pc + 1), m)
      case i => Exec(i, w, m)
  }

  // ---------------------------------------------------------------------------------------------
  // What an instruction writes
  // ---------------------------------------------------------------------------------------------

  function ScalarsWritten(i: Instr): set<nat> {
    match i
    case SMov(S(d), _) => {d}
    case SMov64(d, _) => {d, d + 1}
    case SAlu(_, d, _, _) => {d}
    case SBitset(d, _, _) => {d}
    case SGetreg(d, _) => {d}
    case SLoad(d, _, _) => {d}
    case SAtomic(_, d, _, _) => {d}
    case VReadFirst(d, _) => {d}
    case _ => {}
  }

  function VectorsWritten(i: Instr): set<nat> {
    match i
    case VAlu(_, d, _, _, _) => {d}
    case VAddCo(d, _, _) => {d}
    case VAddcCo(d, _, _) => {d}
    case VWriteLane(d, _, _) => {d}
    case DsBpermute(d, _, _) => {d}
    case FlatLoad(d, _, _) => {d}
    case _ => {}
  }

  predicate HighOff(w: Wave) {
    forall l :: 32 <= l < 64 ==> !w.exec[l]
  }

  lemma ScalarFrame(i: Instr, w: Wave, m: Mem, s: nat)
    requires s !in ScalarsWritten(i)
    ensures SReg(Effect(i, w, m).0.sgpr, s) == SReg(w.sgpr, s)
  {
    hide ScalarCalc, VectorLanes, LoadLanes, PermuteLanes, StoreLanes, HwReg, WithBit, FirstLane, Effective, ReadMem,
         Wave.Value, SetLanes, SetLane, AddLanes, NotEqualMask, WithLow, WithHigh, Wave.Scalar64, ToWord;
  }

  lemma VectorFrame(i: Instr, w: Wave, m: Mem, v: nat, l: nat)
    requires v !in VectorsWritten(i) && l < 64
    ensures VReg(Effect(i, w, m).0.vgpr, v, l) == VReg(w.vgpr, v, l)
  {
    hide ScalarCalc, VectorLanes, LoadLanes, PermuteLanes, StoreLanes, HwReg, WithBit, FirstLane, Effective, ReadMem,
         Wave.Value, SetLanes, SetLane, AddLanes, NotEqualMask, WithLow, WithHigh, Wave.Scalar64, ToWord;
  }

  lemma HighFrame(i: Instr, w: Wave, m: Mem)
    requires HighOff(w) && !(i.SMov? && i.dst.ExecHi?)
    ensures HighOff(Effect(i, w, m).0)
  {
    hide ScalarCalc, VectorLanes, LoadLanes, PermuteLanes, StoreLanes, HwReg, WithBit, FirstLane, Effective, ReadMem,
         Wave.Value, SetLanes, SetLane, AddLanes, NotEqualMask, WithLow, WithHigh, Wave.Scalar64, ToWord;
  }

  /** A step changes no other register, and turns on upper lanes only by a move to exec_hi. */
  lemma StepWrites(code: seq<Instr>, w: Wave, m: Mem)
    requires w.pc < |code|
    ensures var i, w' := code[w.pc], Step(code, w, m).0;
      && (forall s: nat :: s !in ScalarsWritten(i) ==> SReg(w'.sgpr, s) == SReg(w.sgpr, s))
      && (forall v: nat, l :: v !in VectorsWritten(i) && 0 <= l < 64 ==> VReg(w'.vgpr, v, l) == VReg(w.vgpr, v, l))
      && (HighOff(w) && !(i.SMov? && i.dst.ExecHi?) ==> HighOff(w'))
  {
    hide Effect, ScalarsWritten, VectorsWritten, Target, SReg, VReg;
    var i := code[w.pc];
    forall s: nat | s !in ScalarsWritten(i) ensures SReg(Effect(i, w, m).0.sgpr, s) == SReg(w.sgpr, s) {
      ScalarFrame(i, w, m, s);
    }
    forall v: nat, l | v !in VectorsWritten(i) && 0 <= l < 64
      ensures VReg(Effect(i, w, m).0.vgpr, v, l) == VReg(w.vgpr, v, l)
    {
      VectorFrame(i, w, m, v, l);
    }
    if HighOff(w) && !(i.SMov? && i.dst.ExecHi?) { HighFrame(i, w, m); }
  }

  /** The wave after its first n steps, step k finding the memory sched[k]: other waves may have
      written anything in between. */
  function Run(code: seq<Instr>, w: Wave, sched: seq<Mem>, n: nat): Wave
    requires n <= |sched|
  {
    if n == 0 then w else Step(code, Run(code, w, sched, n - 1), sched[n - 1]).0
  }

  /** `block` stands in the program from line p on. */
  ghost predicate At(code: seq<Instr>, p: nat, block: seq<Instr>) {
    p + |block| <= |code| && forall i :: 0 <= i < |block| ==> code[p + i] == block[i]
  }

  lemma StepAt(code: seq<Instr>, p: nat, block: seq<Instr>, k: nat, w: Wave, m: Mem)
    requires At(code, p, block) && k < |block| && w.pc == p + k && !block[k].Branch? && !block[k].BranchIf?
    ensures Step(code, w, m) == Exec(block[k], w, m)
  {
    hide Exec, Target;
    assert code[p + k] == block[k];
  }

  lemma PartAt(code: seq<Instr>, p: nat, block: seq<Instr>, i: nat, j: nat)
    requires At(code, p, block) && i <= j <= |block|
    ensures At(code, p + i, block[i..j])
  {
    forall k | 0 <= k < j - i ensures code[p + i + k] == block[i..j][k] {
      assert code[p + (i + k)] == block[i + k];
    }
  }

  /** One step more. */
  lemma RunStep(code: seq<Instr>, w: Wave, sched: seq<Mem>, n: nat)
    requires n < |sched|
    ensures Run(code, w, sched, n + 1) == Step(code, Run(code, w, sched, n), sched[n]).0
    ensures Run(code, w, sched, 0) == w
  {
    hide Step;
  }

  predicate Straight(block: seq<Instr>) {
    forall i :: 0 <= i < |block| ==> !block[i].Branch? && !block[i].BranchIf?
  }

  /** The first n instructions of a block, one after the other. */
  function Through(block: seq<Instr>, w: Wave, sched: seq<Mem>, n: nat): Wave
    requires n <= |block| && n <= |sched|
  {
    if n == 0 then w else Exec(block[n - 1], Through(block, w, sched, n - 1), sched[n - 1]).0
  }

  lemma Through1(b: seq<Instr>, w: Wave, sched: seq<Mem>)
    requires |b| >= 1 && |sched| >= 1
    ensures Through(b, w, sched, 1) == Exec(b[0], w, sched[0]).0
  {
    hide Exec;
  }

  lemma Through2(b: seq<Instr>, w: Wave, sched: seq<Mem>)
    requires |b| >= 2 && |sched| >= 2
    ensures Through(b, w, sched, 2) == Exec(b[1], Exec(b[0], w, sched[0]).0, sched[1]).0
  {
    hide Exec;
    assert Through(b, w, sched, 1) == Exec(b[0], w, sched[0]).0;
  }

  lemma Through3(b: seq<Instr>, w: Wave, sched: seq<Mem>)
    requires |b| >= 3 && |sched| >= 3
    ensures Through(b, w, sched, 3) ==
      Exec(b[2], Exec(b[1], Exec(b[0], w, sched[0]).0, sched[1]).0, sched[2]).0
  {
    hide Exec;
    Through2(b, w, sched);
  }

  lemma Through4(b: seq<Instr>, w: Wave, sched: seq<Mem>)
    requires |b| >= 4 && |sched| >= 4
    ensures Through(b, w, sched, 4) ==
      Exec(b[3], Exec(b[2], Exec(b[1], Exec(b[0], w, sched[0]).0, sched[1]).0, sched[2]).0, sched[3]).0
  {
    hide Exec;
    Through3(b, w, sched);
  }

  lemma Through5(b: seq<Instr>, w: Wave, sched: seq<Mem>)
    requires |b| >= 5 && |sched| >= 5
    ensures Through(b, w, sched, 5) ==
      Exec(b[4], Exec(b[3], Exec(b[2], Exec(b[1], Exec(b[0], w, sched[0]).0, sched[1]).0, sched[2]).0, sched[3]).0,
        sched[4]).0
  {
    hide Exec;
    Through4(b, w, sched);
  }

  /** Two blocks, one after the other. */
  lemma {:induction false} ThroughMore(a: seq<Instr>, b: seq<Instr>, w: Wave, sched: seq<Mem>, n: nat)
    requires n <= |b| && |a| + n <= |sched|
    ensures Through(a + b, w, sched, |a| + n) == Through(b, Through(a, w, sched, |a|), sched[|a|..], n)
  {
    hide Exec;
    if n == 0 {
      ThroughPrefix(a, b, w, sched, |a|);
    } else {
      ThroughMore(a, b, w, sched, n - 1);
    }
  }

  lemma {:induction false} ThroughPrefix(a: seq<Instr>, b: seq<Instr>, w: Wave, sched: seq<Mem>, n: nat)
    requires n <= |a| && n <= |sched|
    ensures Through(a + b, w, sched, n) == Through(a, w, sched, n)
  {
    hide Exec;
    if n > 0 { ThroughPrefix(a, b, w, sched, n - 1); }
  }

  lemma ThroughBoth(a: seq<Instr>, b: seq<Instr>, w: Wave, sched: seq<Mem>)
    requires |a| + |b| <= |sched|
    ensures Through(a + b, w, sched, |a| + |b|) == Through(b, Through(a, w, sched, |a|), sched[|a|..], |b|)
  {
    hide Exec, Through;
    ThroughMore(a, b, w, sched, |b|);
  }

  /** A block without branches runs straight through. */
  lemma {:induction false} RunStraight(code: seq<Instr>, p: nat, block: seq<Instr>, w: Wave, sched: seq<Mem>, n: nat)
    requires At(code, p, block) && Straight(block) && w.pc == p && n <= |block| && n <= |sched|
    ensures Run(code, w, sched, n) == Through(block, w, sched, n)
    ensures Through(block, w, sched, n).pc == p + n
  {
    hide Effect, Target;
    if n > 0 {
      RunStraight(code, p, block, w, sched, n - 1);
    }
  }

  /** Running on. */
  lemma {:induction false} RunOn(code: seq<Instr>, w: Wave, sched: seq<Mem>, a: nat, b: nat)
    requires a + b <= |sched|
    ensures Run(code, w, sched, a + b) == Run(code, Run(code, w, sched, a), sched[a..], b)
  {
    hide Step;
    if b > 0 { RunOn(code, w, sched, a, b - 1); }
  }
}

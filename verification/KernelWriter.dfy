/** The kernel writer: register files changed in place, and text appended line by line. */
module KernelWriters {
  import opened Words
  import opened Isa
  import opened Registers
  import opened Generator
  import opened Temps
  import opened Address
  import opened Checks
  import LinearAddr
  import AddByte
  import SlotAddr
  import BufferDesc
  import CounterLoop
  import KernelText
  import PendCode
  import Worker

  /** The lines of a block: labels stand at the margin, everything else at the indentation. */
  function LinesOf(tab: int, code: seq<Instr>): (r: seq<Line>)
    ensures |r| == |code|
    ensures forall i :: 0 <= i < |r| ==> r[i] == Line(if code[i].Label? then 0 else tab, code[i])
  {
    seq(|code|, i requires 0 <= i < |code| => Line(if code[i].Label? then 0 else tab, code[i]))
  }

  /** The lowest free aligned run, or the length of the file. */
  method FindRun(state: array<int>, len: nat, align: nat) returns (idleIdx: nat)
    requires align > 0 && Scan(state[..], len, align, 0) != Overrun
    ensures idleIdx == match Scan(state[..], len, align, 0) case Found(i) => i case _ => state.Length
  {
    hide FreeRun, IsAligned;
    idleIdx := 0;
    while idleIdx < state.Length
      invariant idleIdx <= state.Length
      invariant Scan(state[..], len, align, idleIdx) == Scan(state[..], len, align, 0)
    {
      if !IsAligned(idleIdx, align) {
        idleIdx := idleIdx + 1;
        continue;
      }
      if state[idleIdx] != 0 {
        idleIdx := idleIdx + 1;
        continue;
      }
      var idleChk := 0;
      while idleChk < len
        invariant idleChk <= len && idleIdx + idleChk <= state.Length && AllFree(state[..], idleIdx, idleIdx + idleChk)
      {
        assert idleIdx + idleChk < state.Length;
        if state[idleIdx + idleChk] != 0 {
          break;
        }
        idleChk := idleChk + 1;
      }
      if idleChk != len {
        idleIdx := idleIdx + 1;
        continue;
      }
      break;
    }
  }

  /** len cells from idx on become v. */
  method SetRun(state: array<int>, idx: nat, len: nat, v: int)
    requires idx + len <= state.Length
    modifies state
    ensures state[..] == Fill(old(state[..]), idx, len, v)
  {
    for i := 0 to len
      invariant forall j :: 0 <= j < state.Length ==> state[j] == if idx <= j < idx + i then v else old(state[j])
    {
      state[idx + i] := v;
    }
  }

  function VarOf(r: Reply): Var {
    match r
    case Got(Some(v)) => v
    case _ => Off("")
  }

  class KernelWriter {
    const sgprState: array<int>
    const vgprState: array<int>
    var sgprCountMax: nat
    var vgprCountMax: nat
    var ldsByteCount: int
    var tableCnt: int
    var kernelString: seq<Line>
    var sGidX: Var
    var vTidX: Var
    const kernelName: string
    const groupSize0: int

    ghost predicate Valid()
      reads this
    {
      sgprState.Length == MAX_SGPR && vgprState.Length == MAX_VGPR && sgprState != vgprState
    }

    ghost function State(): Gen
      reads this, sgprState, vgprState
    {
      Gen(sgprState[..], vgprState[..], sgprCountMax, vgprCountMax, ldsByteCount, tableCnt, kernelString)
    }

    constructor (name: string, size: int)
      ensures Valid() && fresh(sgprState) && fresh(vgprState) && IsFresh(State())
      ensures kernelName == name && groupSize0 == size
    {
      sgprState, vgprState := new int[MAX_SGPR](_ => 0), new int[MAX_VGPR](_ => 0);
      sgprCountMax, vgprCountMax, ldsByteCount, tableCnt := 0, 0, 0, 0;
      kernelString := [];
      sGidX, vTidX := Off(""), Off("");
      kernelName, groupSize0 := name, size;
      new;
    }

    method NewSgpr(name: string, len: nat, align: nat) returns (opt: Option<Var>)
      requires Valid() && Safe(State(), Cmd.NewSgpr(name, len, align))
      modifies `sgprCountMax, sgprState
      ensures (State(), Got(opt)) == Do(old(State()), Cmd.NewSgpr(name, len, align))
    {
      hide Scan, Fill;
      if IsOff(name) {
        return Some(Off(name));
      }
      var idleIdx := FindRun(sgprState, len, align);
      ScanInside(sgprState[..], len, align);
      if idleIdx == MAX_SGPR {
        return None;
      }
      SetRun(sgprState, idleIdx, len, 1);
      if idleIdx + len > sgprCountMax {
        sgprCountMax := idleIdx + len;
      }
      opt := Some(Sgpr(name, idleIdx, len, align));
    }

    method NewVgpr(name: string, len: nat, align: nat) returns (opt: Option<Var>)
      requires Valid() && Safe(State(), Cmd.NewVgpr(name, len, align))
      modifies `vgprCountMax, vgprState
      ensures (State(), Got(opt)) == Do(old(State()), Cmd.NewVgpr(name, len, align))
    {
      hide Scan, Fill;
      if IsOff(name) {
        return Some(Off(name));
      }
      var idleIdx := FindRun(vgprState, len, align);
      ScanInside(vgprState[..], len, align);
      if idleIdx == MAX_VGPR {
        return None;
      }
      SetRun(vgprState, idleIdx, len, 1);
      if idleIdx + len > vgprCountMax {
        vgprCountMax := idleIdx + len;
      }
      opt := Some(Vgpr(name, idleIdx, len, align));
    }

    method DelVar(opter: Var)
      requires Valid() && Safe(State(), Cmd.DelVar(opter))
      modifies sgprState, vgprState
      ensures State() == Do(old(State()), Cmd.DelVar(opter)).0
    {
      match opter
      case Sgpr(_, idx, len, _) => SetRun(sgprState, idx, len, 0);
      case Vgpr(_, idx, len, _) => SetRun(vgprState, idx, len, 0);
      case _ =>
    }

    method ClrVar()
      requires Valid()
      modifies sgprState, vgprState
      ensures sgprState[..] == Fill(old(sgprState[..]), 0, MAX_SGPR, 0)
      ensures vgprState[..] == Fill(old(vgprState[..]), 0, MAX_VGPR, 0)
    {
      SetRun(sgprState, 0, MAX_SGPR, 0);
      SetRun(vgprState, 0, MAX_VGPR, 0);
    }

    method WrLine(ins: Instr)
      modifies `kernelString
      ensures kernelString == old(kernelString) + [Line(tableCnt, ins)]
    {
      kernelString := kernelString + [Line(tableCnt, ins)];
    }

    /** The indentation is saved, set to the margin, and restored. */
    method WrLaber(name: string)
      modifies `kernelString, `tableCnt
      ensures tableCnt == old(tableCnt) && kernelString == old(kernelString) + [Line(0, Label(name))]
    {
      var saveTabCnt := tableCnt;
      tableCnt := 0;
      WrLine(Label(name));
      tableCnt := saveTabCnt;
    }

    /** log2 by halving. */
    static method Log2(value: int) returns (log2: nat)
      ensures log2 == Log2Of(value)
    {
      log2 := 0;
      var rest := value;
      while rest > 1
        invariant log2 + Log2Of(rest) == Log2Of(value)
      {
        rest := rest / 2;
        log2 := log2 + 1;
      }
    }

    // -------------------------------------------------------------------------------------------
    // Generating a kernel
    // -------------------------------------------------------------------------------------------

    /** One call of the program. */
    method Execute(c: Cmd) returns (r: Reply)
      requires Valid() && Safe(State(), c)
      modifies this, sgprState, vgprState
      ensures (State(), r) == Do(old(State()), c)
    {
      hide Scan, Fill;
      match c
      case NewSgpr(name, len, align) =>
        var opt := NewSgpr(name, len, align);
        r := Got(opt);
      case NewVgpr(name, len, align) =>
        var opt := NewVgpr(name, len, align);
        r := Got(opt);
      case DelVar(v) =>
        DelVar(v);
        r := Done;
      case UseLds(bytes) =>
        ldsByteCount := ldsByteCount + bytes;
        r := Done;
      case Write(ins) =>
        WrLine(ins);
        r := Done;
      case WriteLaber(name) =>
        WrLaber(name);
        r := Done;
      case Indent =>
        tableCnt := tableCnt + 1;
        r := Done;
      case BackSpace =>
        tableCnt := tableCnt - 1;
        r := Done;
      case SetTable(n) =>
        tableCnt := n;
        r := Done;
    }

    /** A program, call by call. */
    method WriteProgram(p: Program, before: seq<Reply>) returns (rs: seq<Reply>)
      requires Valid() && SafeAll(State(), p, before, p.steps)
      modifies this, sgprState, vgprState
      ensures (State(), rs) == DoAll(old(State()), p, before, p.steps)
    {
      hide Safe, Do;
      rs := before;
      for k := 0 to p.steps
        invariant SafeAll(old(State()), p, before, k) && (State(), rs) == DoAll(old(State()), p, before, k)
      {
        GrowsOn(old(State()), p, before, k + 1, p.steps);
        var a := Execute(p.next(rs));
        rs := rs + [a];
      }
    }

    /** The variables every kernel starts with. */
    method InitialDefaultGprs() returns (rs: seq<Reply>)
      requires Valid() && CanBegin(State())
      modifies this, sgprState, vgprState
      ensures (State(), rs) == DoAll(old(State()), Defaults(), [], 6)
      ensures |rs| == 6 && sGidX == VarOf(rs[1]) && vTidX == VarOf(rs[4])
      ensures AllZero(old(sgprState[..]), MAX_SGPR) && AllZero(old(vgprState[..]), MAX_VGPR) ==>
        sGidX == Sgpr("s_gid_x", 2, 1, 1) && vTidX == Vgpr("v_tid_x", 0, 1, 1)
    {
      hide Safe, Do, DoAll, SafeAll;
      if AllZero(sgprState[..], MAX_SGPR) && AllZero(vgprState[..], MAX_VGPR) { KernelText.DefaultsLie(State()); }
      rs := WriteProgram(Defaults(), []);
      Answers(old(State()), Defaults(), [], 6);
      sGidX, vTidX := VarOf(rs[1]), VarOf(rs[4]);
    }

    method WriteCodeObj()
      modifies `kernelString, `tableCnt
      ensures tableCnt == 1
      ensures kernelString == old(kernelString) + CodeObject(sgprCountMax, vgprCountMax, ldsByteCount)
    {
      hide CodeFlags, CodeCounts;
      WriteCodeFlags();
      WriteCodeCounts();
    }

    method WriteCodeFlags()
      modifies `kernelString, `tableCnt
      ensures tableCnt == 2 && kernelString == old(kernelString) + CodeFlags()
    {
      tableCnt := 1;
      WrLine(Directive(".amd_kernel_code_t", []));
      tableCnt := tableCnt + 1;
      WrLine(Directive("enable_sgpr_kernarg_segment_ptr", [1]));
      WrLine(Directive("enable_sgpr_workgroup_id_x", [1]));
      WrLine(Directive("enable_sgpr_workgroup_id_y", [1]));
      WrLine(Directive("enable_sgpr_workgroup_id_z", [1]));
      WrLine(Directive("enable_vgpr_workitem_id", [2]));
      WrLine(Directive("is_ptr64", [1]));
      WrLine(Directive("float_mode", [192]));
    }

    method WriteCodeCounts()
      requires tableCnt == 2
      modifies `kernelString, `tableCnt
      ensures tableCnt == 1 && kernelString == old(kernelString) + CodeCounts(sgprCountMax, vgprCountMax, ldsByteCount)
    {
      hide Granulated;
      WrLine(Directive("granulated_wavefront_sgpr_count", [Granulated(sgprCountMax + 6, 8)]));
      WrLine(Directive("granulated_workitem_vgpr_count", [Granulated(vgprCountMax, 4)]));
      WrLine(Directive("user_sgpr_count", [2]));
      WrLine(Directive("wavefront_sgpr_count", [sgprCountMax + 6]));
      WrLine(Directive("workitem_vgpr_count", [vgprCountMax]));
      WrLine(Directive("kernarg_segment_byte_size", [24]));
      WrLine(Directive("workgroup_group_segment_byte_size", [ldsByteCount]));
      tableCnt := tableCnt - 1;
      WrLine(Directive(".end_amd_kernel_code_t", []));
      WrLine(Directive("", []));
    }

    method WriteSignature()
      modifies `kernelString, `tableCnt
      ensures tableCnt == 0 && kernelString == old(kernelString) + Signature(kernelName)
    {
      tableCnt := 0;
      WrLine(Directive(".hsa_code_object_version", [2, 1]));
      WrLine(Directive(".hsa_code_object_isa", [9, 0, 0]));
      WrLine(Directive("", []));
      WrLine(Directive(".text", []));
      WrLine(Directive(".globl " + kernelName, []));
      WrLine(Directive(".p2align", [8]));
      WrLine(Directive(".type " + kernelName + ",@function", []));
      WrLine(Directive(".amdgpu_hsa_kernel " + kernelName, []));
      WrLine(Directive("", []));
    }

    /** Defaults, code object and the first label of the program. */
    method BeginContent() returns (rs: seq<Reply>)
      requires Valid() && CanBegin(State())
      modifies this, sgprState, vgprState
      ensures (State(), rs) == Begun(old(State()), kernelName)
    {
      hide Safe, Do, CodeObject;
      rs := InitialDefaultGprs();
      ghost var h := State();
      tableCnt := 0;
      WrLine(Label(kernelName));
      WriteCodeObj();
      tableCnt := 0;
      WrLine(Label("START_PROG"));
      assert kernelString == h.text + Header(kernelName, h.sMax, h.vMax, h.lds);
      tableCnt := tableCnt + 1;
    }

    /** A pass. */
    method WriteContent(p: Program)
      requires Valid() && Generates(State(), kernelName, p)
      modifies this, sgprState, vgprState
      ensures State() == Content(old(State()), kernelName, p)
    {
      hide Begun, Fill, CanBegin, Safe, Do;
      var rs := BeginContent();
      var _ := WriteProgram(p, rs);
      assert State() == Left(old(State()), kernelName, p);
      tableCnt := 0;
      WrLine(Label("END_PROG"));
      tableCnt := tableCnt + 1;
      WrLine(Directive("s_endpgm", []));
      ClrVar();
    }

    /** Two passes; the text of the first is thrown away. */
    method GenKernelString(p: Program)
      requires Valid() && CanGenerate(State(), kernelName, p)
      modifies this, sgprState, vgprState
      ensures State() == Generated(old(State()), kernelName, p)
    {
      hide Generates, Content, Signature;
      kernelString := [];
      WriteContent(p);
      kernelString := [];
      WriteSignature();
      assert State() == Signed(Content(Emptied(old(State())), kernelName, p), kernelName);
      WriteContent(p);
    }

    // -------------------------------------------------------------------------------------------
    // Common kernel code. Each method appends a block and gives back the registers it took; the
    // registers of the block are apart from those of the caller because the caller's are taken.
    // -------------------------------------------------------------------------------------------

    /** Temporaries of these sizes, in order. */
    method TakeS(names: seq<string>, sizes: seq<nat>) returns (t: seq<nat>)
      requires Valid() && |names| == |sizes| && (forall n :: n in names ==> !IsOff(n)) && Room(sgprState[..], sizes)
      modifies `sgprCountMax, sgprState
      ensures t == Places(old(sgprState[..]), sizes) && sgprState[..] == AfterTaking(old(sgprState[..]), sizes)
    {
      hide Scan, Fill, Room, Places, AfterTaking, IsOff;
      t := [];
      assert sizes[0..] == sizes;
      for k := 0 to |sizes|
        invariant Room(sgprState[..], sizes[k..])
        invariant t + Places(sgprState[..], sizes[k..]) == Places(old(sgprState[..]), sizes)
        invariant AfterTaking(sgprState[..], sizes[k..]) == AfterTaking(old(sgprState[..]), sizes)
      {
        RoomNext(sgprState[..], sizes[k..]);
        assert sizes[k..][1..] == sizes[k + 1..];
        var opt := NewSgpr(names[k], sizes[k], sizes[k]);
        t := t + [opt.value.idx];
      }
      NothingLeft(sgprState[..], sizes[|sizes|..]);
    }

    method TakeV(names: seq<string>, sizes: seq<nat>) returns (t: seq<nat>)
      requires Valid() && |names| == |sizes| && (forall n :: n in names ==> !IsOff(n)) && Room(vgprState[..], sizes)
      modifies `vgprCountMax, vgprState
      ensures t == Places(old(vgprState[..]), sizes) && vgprState[..] == AfterTaking(old(vgprState[..]), sizes)
    {
      hide Scan, Fill, Room, Places, AfterTaking, IsOff;
      t := [];
      assert sizes[0..] == sizes;
      for k := 0 to |sizes|
        invariant Room(vgprState[..], sizes[k..])
        invariant t + Places(vgprState[..], sizes[k..]) == Places(old(vgprState[..]), sizes)
        invariant AfterTaking(vgprState[..], sizes[k..]) == AfterTaking(old(vgprState[..]), sizes)
      {
        RoomNext(vgprState[..], sizes[k..]);
        assert sizes[k..][1..] == sizes[k + 1..];
        var opt := NewVgpr(names[k], sizes[k], sizes[k]);
        t := t + [opt.value.idx];
      }
      NothingLeft(vgprState[..], sizes[|sizes|..]);
    }

    /** delVar, one after the other. */
    method GiveS(sizes: seq<nat>, t: seq<nat>)
      requires Valid() && Inside(sgprState[..], sizes, t)
      modifies sgprState
      ensures sgprState[..] == AfterGiving(old(sgprState[..]), sizes, t)
    {
      hide Fill, AfterGiving;
      assert sizes[0..] == sizes && t[0..] == t;
      for k := 0 to |sizes|
        invariant AfterGiving(sgprState[..], sizes[k..], t[k..]) == AfterGiving(old(sgprState[..]), sizes, t)
      {
        GiveNext(sgprState[..], sizes[k..], t[k..]);
        assert sizes[k..][1..] == sizes[k + 1..] && t[k..][1..] == t[k + 1..];
        SetRun(sgprState, t[k], sizes[k], 0);
      }
      NothingGiven(sgprState[..], sizes[|sizes|..], t[|sizes|..]);
    }

    method GiveV(sizes: seq<nat>, t: seq<nat>)
      requires Valid() && Inside(vgprState[..], sizes, t)
      modifies vgprState
      ensures vgprState[..] == AfterGiving(old(vgprState[..]), sizes, t)
    {
      hide Fill, AfterGiving;
      assert sizes[0..] == sizes && t[0..] == t;
      for k := 0 to |sizes|
        invariant AfterGiving(vgprState[..], sizes[k..], t[k..]) == AfterGiving(old(vgprState[..]), sizes, t)
      {
        GiveNext(vgprState[..], sizes[k..], t[k..]);
        assert sizes[k..][1..] == sizes[k + 1..] && t[k..][1..] == t[k + 1..];
        SetRun(vgprState, t[k], sizes[k], 0);
      }
      NothingGiven(vgprState[..], sizes[|sizes|..], t[|sizes|..]);
    }

    /** A block whose memory instructions are checked once they have been written. */
    method WrChecked(code: seq<Instr>, sLen: nat, vLen: nat)
      modifies `kernelString, `tableCnt
      ensures tableCnt == old(tableCnt)
      ensures kernelString == old(kernelString) + LinesOf(tableCnt, Checked(code, sLen, vLen))
    {
      hide LinesOf, CheckedOne, Complaint;
      assert code[..0] == [];
      NoLines(tableCnt, sLen, vLen);
      for k := 0 to |code|
        invariant tableCnt == old(tableCnt)
        invariant kernelString == old(kernelString) + LinesOf(tableCnt, Checked(code[..k], sLen, vLen))
      {
        assert code[..k + 1][..k] == code[..k];
        JoinLines(tableCnt, Checked(code[..k], sLen, vLen), CheckedOne(code[k], sLen, vLen));
        WrBlock(CheckedOne(code[k], sLen, vLen));
      }
      assert code[..|code|] == code;
    }

    /** The lines of a block, one after the other. */
    method WrBlock(code: seq<Instr>)
      modifies `kernelString, `tableCnt
      ensures tableCnt == old(tableCnt) && kernelString == old(kernelString) + LinesOf(tableCnt, code)
    {
      ghost var lines := LinesOf(tableCnt, code);
      hide LinesOf;
      for k := 0 to |code|
        invariant tableCnt == old(tableCnt) && kernelString == old(kernelString) + lines[..k]
      {
        assert lines[..k + 1] == lines[..k] + [lines[k]];
        match code[k]
        case Label(name) => WrLaber(name);
        case ins => WrLine(ins);
      }
    }

    method FLinearAddr(sBaseAddr: Var, vAddr: Var)
      requires Valid() && sBaseAddr.Sgpr? && vAddr.Vgpr? && sGidX.Sgpr? && vTidX.Vgpr? && Room(vgprState[..], [1, 1])
      modifies `kernelString, `tableCnt, `vgprCountMax, vgprState
      ensures var r := LinearTemps(old(vgprState[..]), sGidX.idx, vTidX.idx, sBaseAddr.idx, vAddr.idx);
        kernelString == old(kernelString) + LinesOf(tableCnt, LinearAddr.LinearCode(r, groupSize0))
      ensures vgprState[..] == old(vgprState[..]) && tableCnt == old(tableCnt)
    {
      hide Room, Places, AfterTaking, AfterGiving;
      GivenBack(vgprState[..], [1, 1]);
      var t := TakeV(["v_tmp1", "v_tmp2"], [1, 1]);
      WrBlock(LinearAddr.LinearCode(LinearAddr.LinearRegs(t[0], t[1], sGidX.idx, vTidX.idx, sBaseAddr.idx, vAddr.idx),
        groupSize0));
      GiveV([1, 1], t);
    }

    /** s_getreg_b32 and the extractions asked for; None stands for "off". */
    method FReadHwRegHwId(outs: seq<Option<nat>>)
      requires Valid() && |outs| == SlotAddr.FIELDS && Room(sgprState[..], [1])
      modifies `kernelString, `tableCnt, `sgprCountMax, sgprState
      ensures kernelString ==
        old(kernelString) + LinesOf(tableCnt, SlotAddr.ReadHwId(Places(old(sgprState[..]), [1])[0], outs))
      ensures sgprState[..] == old(sgprState[..]) && tableCnt == old(tableCnt)
    {
      hide Room, Places, AfterTaking, AfterGiving;
      GivenBack(sgprState[..], [1]);
      var t := TakeS(["s_dest"], [1]);
      WrBlock(SlotAddr.ReadHwId(t[0], outs));
      GiveS([1], t);
    }

    method FSignalSlotAddr(sSlotAddr: Var, sPtrSignal: Var, slotSizePerCu: int)
      requires Valid() && sSlotAddr.Sgpr? && sPtrSignal.Sgpr? && Room(sgprState[..], [1, 1, 1, 1])
      modifies `kernelString, `tableCnt, `sgprCountMax, sgprState
      ensures var r := SlotTemps(old(sgprState[..]), sSlotAddr.idx, sPtrSignal.idx);
        kernelString == old(kernelString) + LinesOf(tableCnt, SlotAddr.SlotCode(r, slotSizePerCu))
      ensures sgprState[..] == old(sgprState[..]) && tableCnt == old(tableCnt)
    {
      hide Room, Places, AfterTaking, AfterGiving, LinesOf;
      FourTemps(sgprState[..]);
      GivenBack(sgprState[..], [1, 1, 1]);
      var t := TakeS(["s_tmp1", "s_cu_id", "s_se_id"], [1, 1, 1]);
      ghost var r := SlotTemps(old(sgprState[..]), sSlotAddr.idx, sPtrSignal.idx);
      var tmp, cu, se := t[0], t[1], t[2];
      FReadHwRegHwId([None, None, None, Some(cu), None, Some(se), None, None, None, None, None]);
      var rest := SlotAddr.SlotIndex(SlotAddr.SlotRegs(0, tmp, cu, se, sSlotAddr.idx, sPtrSignal.idx), slotSizePerCu)
        + WideAdd(sSlotAddr.idx, sPtrSignal.idx, S(tmp));
      WrBlock(rest);
      JoinLines(tableCnt, SlotAddr.ReadHwId(r.dest, SlotAddr.SlotOuts(r)), rest);
      assert SlotAddr.SlotCode(r, slotSizePerCu) == SlotAddr.ReadHwId(r.dest, SlotAddr.SlotOuts(r)) + rest;
      GiveTail(sgprState[..], t);
      GiveS([1, 1], [cu, se]);
      SetRun(sgprState, tmp, 1, 0);
    }

    method FInitSignalSlot(sSlotAddr: Var, vSignalAddr: Var, waveNumOffset: nat, signalOffset: nat)
      requires Valid() && sSlotAddr.Sgpr? && vSignalAddr.Vgpr? && sGidX.Sgpr?
      requires Room(vgprState[..], [1, 1]) && Room(sgprState[..], [1, 1, 1])
      modifies `kernelString, `tableCnt, `sgprCountMax, `vgprCountMax, sgprState, vgprState
      ensures var r := InitTemps(old(sgprState[..]), old(vgprState[..]), sSlotAddr.idx, sGidX.idx, vSignalAddr.idx,
                               waveNumOffset, signalOffset);
        var code := Checked(Worker.InitCode(r), sSlotAddr.len, vSignalAddr.len);
        kernelString == old(kernelString) + LinesOf(tableCnt, code)
      ensures sgprState[..] == old(sgprState[..]) && vgprState[..] == old(vgprState[..]) && tableCnt == old(tableCnt)
    {
      hide Room, Places, AfterTaking, AfterGiving, LinesOf, Checked, Worker.InitCode;
      GivenBack(vgprState[..], [1, 1]);
      GivenBack(sgprState[..], [1, 1, 1]);
      var v := TakeV(["v_tmp1", "v_tmp2"], [1, 1]);
      var s := TakeS(["s_tmp1", "s_wave_id", "s_sig_idx"], [1, 1, 1]);
      var r := Worker.InitRegs(v[0], v[1], s[0], s[1], s[2], sSlotAddr.idx, sGidX.idx, vSignalAddr.idx, "END_INIT",
                               waveNumOffset, signalOffset);
      WrChecked(Worker.InitCode(r), sSlotAddr.len, vSignalAddr.len);
      GiveV([1, 1], v);
      GiveS([1, 1, 1], s);
    }

    method FDeinitSignalSlot(sSlotAddr: Var, waveNumOffset: nat)
      requires Valid() && sSlotAddr.Sgpr? && Room(sgprState[..], [1])
      modifies `kernelString, `tableCnt, `sgprCountMax, sgprState
      ensures var code := Worker.DeinitCode(Places(old(sgprState[..]), [1])[0], sSlotAddr.idx, waveNumOffset);
        kernelString == old(kernelString) + LinesOf(tableCnt, Checked(code, sSlotAddr.len, 2))
      ensures sgprState[..] == old(sgprState[..]) && tableCnt == old(tableCnt)
    {
      hide Room, Places, AfterTaking, AfterGiving;
      GivenBack(sgprState[..], [1]);
      var t := TakeS(["s_tmp1"], [1]);
      WrChecked(Worker.DeinitCode(t[0], sSlotAddr.idx, waveNumOffset), sSlotAddr.len, 2);
      GiveS([1], t);
    }

    method FSendSignal(vSignalAddr: Var, vSignal: Var, signalOffset: nat)
      requires vSignalAddr.Vgpr? && vSignal.Vgpr?
      modifies `kernelString, `tableCnt
      ensures var code := Worker.SendCode(vSignalAddr.idx, vSignal.idx, signalOffset);
        kernelString == old(kernelString) + LinesOf(tableCnt, Checked(code, 2, vSignalAddr.len))
      ensures tableCnt == old(tableCnt)
    {
      WrChecked(Worker.SendCode(vSignalAddr.idx, vSignal.idx, signalOffset), 2, vSignalAddr.len);
    }

    /** The registers the loop carries from turn to turn are given back here, before the caller's code. */
    method FSPendSignal(sSlotAddr: Var, lBeginLoop: Var, lEndLoop: Var, waveNumOffset: nat, signalOffset: nat,
                        sSignal: Var)
      requires Valid() && sSlotAddr.Sgpr? && lBeginLoop.Laber? && lEndLoop.Laber? && sSignal.Sgpr? && vTidX.Vgpr?
      requires Room(vgprState[..], PEND_VGPRS) && Room(sgprState[..], PEND_SGPRS)
      modifies `kernelString, `tableCnt, `sgprCountMax, `vgprCountMax, sgprState, vgprState
      ensures var r := PendTemps(old(sgprState[..]), old(vgprState[..]));
        var a := PendCode.PendArgs(vTidX.idx, sSlotAddr.idx, sSignal.idx, lBeginLoop.name, lEndLoop.name, waveNumOffset,
          signalOffset);
        var code := PendCode.PendSetup(r, a) + PendCode.PendLoop(r, a);
        kernelString == old(kernelString) + LinesOf(tableCnt, Checked(code, sSlotAddr.len, 2))
      ensures sgprState[..] == old(sgprState[..]) && vgprState[..] == old(vgprState[..]) && tableCnt == old(tableCnt)
    {
      hide Room, Places, AfterTaking, AfterGiving, LinesOf, Checked, PendCode.PendSetup, PendCode.PendLoop;
      GivenBack(vgprState[..], PEND_VGPRS);
      GivenBack(sgprState[..], PEND_SGPRS);
      var v := TakeV(["v_tmp1", "v_tmp2", "v_signal", "v_signal_addr", "v_fetch_flag", "v_fetch_idx_stack"],
        PEND_VGPRS);
      var s := TakeS(["s_exec_save", "s_wave_num", "s_old_fetch", "s_new_fetch", "s_fetched_data_flag"], PEND_SGPRS);
      var r := PendCode.PendRegs(v[0], v[1], v[2], v[3], v[4], v[5], s[0], s[1], s[2], s[3], s[4]);
      var a := PendCode.PendArgs(vTidX.idx, sSlotAddr.idx, sSignal.idx, lBeginLoop.name, lEndLoop.name, waveNumOffset,
        signalOffset);
      WrChecked(PendCode.PendSetup(r, a) + PendCode.PendLoop(r, a), sSlotAddr.len, 2);
      GiveV(PEND_VGPRS, v);
      GiveS(PEND_SGPRS, s);
    }

    method FEPendSignal(lBeginLoop: Var, lEndLoop: Var)
      requires lBeginLoop.Laber? && lEndLoop.Laber?
      modifies `kernelString, `tableCnt
      ensures kernelString == old(kernelString) + LinesOf(tableCnt, [Branch(lBeginLoop.name), Label(lEndLoop.name)])
      ensures tableCnt == old(tableCnt)
    {
      WrBlock([Branch(lBeginLoop.name), Label(lEndLoop.name)]);
    }

    /** The label resets the indentation, whatever it was. */
    method FSLoop(sCnt: Var, loopCnt: Opnd, loopName: string)
      requires sCnt.Sgpr?
      modifies `kernelString, `tableCnt
      ensures kernelString ==
        old(kernelString) + LinesOf(old(tableCnt), CounterLoop.LoopStart(sCnt.idx, loopCnt, loopName))
      ensures tableCnt == 1
    {
      WrLine(SMov(S(sCnt.idx), loopCnt));
      tableCnt := 0;
      WrLine(Label(loopName));
      tableCnt := tableCnt + 1;
    }

    /** The form that takes the label of the loop. */
    method FELoopAt(sCnt: Var, loopLab: Var)
      requires sCnt.Sgpr? && loopLab.Laber?
      modifies `kernelString, `tableCnt
      ensures kernelString == old(kernelString) + LinesOf(tableCnt, CounterLoop.LoopEnd(sCnt.idx, loopLab.name))
      ensures tableCnt == old(tableCnt)
    {
      WrBlock(CounterLoop.LoopEnd(sCnt.idx, loopLab.name));
    }

    /** The form that takes the name of the loop also gives back the counter. */
    method FELoop(sCnt: Var, loopName: string)
      requires Valid() && sCnt.Sgpr? && sCnt.idx + sCnt.len <= MAX_SGPR
      modifies `kernelString, `tableCnt, sgprState
      ensures kernelString == old(kernelString) + LinesOf(tableCnt, CounterLoop.LoopEnd(sCnt.idx, loopName))
      ensures tableCnt == old(tableCnt) && sgprState[..] == Fill(old(sgprState[..]), sCnt.idx, sCnt.len, 0)
    {
      hide Fill;
      WrBlock(CounterLoop.LoopEnd(sCnt.idx, loopName));
      SetRun(sgprState, sCnt.idx, sCnt.len, 0);
    }

    /** A large literal takes a temporary, which the scalar form does not give back. */
    method FAddrAddByte(addr: Var, offset: AddByte.Offset) returns (ok: bool)
      requires Valid()
      requires addr.Vgpr? && AddByte.IsLarge(offset) ==> Room(vgprState[..], [1])
      requires addr.Sgpr? && AddByte.IsLarge(offset) ==> Room(sgprState[..], [1])
      modifies `kernelString, `tableCnt, `sgprCountMax, `vgprCountMax, sgprState, vgprState
      ensures ok == (addr.Vgpr? || addr.Sgpr?) && tableCnt == old(tableCnt)
      ensures addr.Vgpr? ==>
        var tmp := if AddByte.IsLarge(offset) then Places(old(vgprState[..]), [1])[0] else 0;
        kernelString == old(kernelString) + LinesOf(tableCnt, AddByte.VectorCode(addr.idx, offset, tmp))
      ensures addr.Sgpr? ==>
        var tmp := if AddByte.IsLarge(offset) then Places(old(sgprState[..]), [1])[0] else 0;
        kernelString == old(kernelString) + LinesOf(tableCnt, AddByte.ScalarCode(addr.idx, offset, tmp))
      ensures !ok ==> kernelString == old(kernelString)
      ensures vgprState[..] == old(vgprState[..])
      ensures sgprState[..] ==
        if addr.Sgpr? && AddByte.IsLarge(offset) then AfterTaking(old(sgprState[..]), [1]) else old(sgprState[..])
    {
      hide Room, Places, AfterTaking, AfterGiving, LinesOf;
      match addr
      case Vgpr(_, d, _, _) =>
        if AddByte.IsLarge(offset) {
          GivenBack(vgprState[..], [1]);
          var t := TakeV(["t_offset"], [1]);
          WrBlock(AddByte.VectorCode(d, offset, t[0]));
          GiveV([1], t);
        } else {
          WrBlock(AddByte.VectorCode(d, offset, 0));
        }
        ok := true;
      case Sgpr(_, d, _, _) =>
        if AddByte.IsLarge(offset) {
          var t := TakeS(["t_offset"], [1]);
          WrBlock(AddByte.ScalarCode(d, offset, t[0]));
        } else {
          WrBlock(AddByte.ScalarCode(d, offset, 0));
        }
        ok := true;
      case _ =>
        ok := false;
    }

    /** The operands are checked after the four lines have been written. */
    method FSetBufferDesc(sDesc: Var, sBase: Var, a: BufferDesc.DescArgs) returns (ok: bool)
      requires IsRegister(sDesc) && IsRegister(sBase)
      modifies `kernelString, `tableCnt
      ensures ok == (sDesc.Sgpr? && sDesc.len == 4 && sBase.Sgpr?) && tableCnt == old(tableCnt)
      ensures kernelString == old(kernelString) + LinesOf(tableCnt, DescLines(sDesc, sBase, a)) +
        if ok then [] else [Line(tableCnt, Directive(DescError(sDesc), []))]
      ensures ok ==> kernelString == old(kernelString) + LinesOf(tableCnt, BufferDesc.DescCode(sDesc.idx, sBase.idx, a))
    {
      hide LinesOf;
      WrBlock(DescLines(sDesc, sBase, a));
      if !sDesc.Sgpr? {
        WrLine(Directive("buffer descriptor not sgpr", []));
        return false;
      }
      if sDesc.len != 4 {
        WrLine(Directive("buffer descriptor not 4-dword", []));
        return false;
      }
      if !sBase.Sgpr? {
        WrLine(Directive("buffer obj base address not sgpr", []));
        return false;
      }
      ok := true;
    }
  }

  predicate IsRegister(v: Var) {
    v.Sgpr? || v.Vgpr?
  }

  /** Register i of a variable, as it is printed. */
  function Nth(v: Var, i: nat): Opnd
    requires IsRegister(v)
  {
    if v.Sgpr? then S(v.idx + i) else V(v.idx + i)
  }

  /** The four lines; with scalar operands they are the code of BufferDesc. */
  function DescLines(sDesc: Var, sBase: Var, a: BufferDesc.DescArgs): seq<Instr>
    requires IsRegister(sDesc) && IsRegister(sBase)
  {
    if sDesc.Sgpr? && sBase.Sgpr? then BufferDesc.DescCode(sDesc.idx, sBase.idx, a)
    else
      [Raw("s_mov_b64", [Nth(sDesc, 0), Nth(sDesc, 1), Nth(sBase, 0), Nth(sBase, 1)]),
       Raw("s_or_b32", [Nth(sDesc, 1), Nth(sDesc, 1), Imm(BufferDesc.Word1(a))]),
       Raw("s_mov_b32", [Nth(sDesc, 2), Imm(a.recordNum)]),
       Raw("s_mov_b32", [Nth(sDesc, 3), Imm(BufferDesc.Word3(a))])]
  }

  /** The first check that fails. */
  function DescError(sDesc: Var): string
    requires IsRegister(sDesc)
  {
    if !sDesc.Sgpr? then "buffer descriptor not sgpr"
    else if sDesc.len != 4 then "buffer descriptor not 4-dword"
    else "buffer obj base address not sgpr"
  }

  lemma NothingLeft(cells: seq<int>, sizes: seq<nat>)
    requires sizes == [] && Room(cells, sizes)
    ensures Places(cells, sizes) == [] && AfterTaking(cells, sizes) == cells
  {
  }

  lemma NothingGiven(cells: seq<int>, sizes: seq<nat>, t: seq<nat>)
    requires sizes == [] && Inside(cells, sizes, t)
    ensures AfterGiving(cells, sizes, t) == cells
  {
  }

  lemma GiveNext(cells: seq<int>, sizes: seq<nat>, t: seq<nat>)
    requires sizes != [] && Inside(cells, sizes, t)
    ensures AfterGiving(cells, sizes, t) == AfterGiving(Fill(cells, t[0], sizes[0], 0), sizes[1..], t[1..])
  {
  }

  /** The registers f_linear_addr works with. */
  function LinearTemps(v: seq<int>, gid: nat, tid: nat, base: nat, addr: nat): LinearAddr.LinearRegs
    requires Room(v, [1, 1])
  {
    var t := Places(v, [1, 1]);
    LinearAddr.LinearRegs(t[0], t[1], gid, tid, base, addr)
  }

  lemma LinearTempsApart(v: seq<int>, gid: nat, tid: nat, base: nat, addr: nat)
    requires Room(v, [1, 1]) && Owned(v, addr, 2) && Owned(v, tid, 1)
    ensures LinearAddr.LinearApart(LinearTemps(v, gid, tid, base, addr))
  {
    hide Room, Places;
    PlacesPlaced(v, [1, 1]);
    var t := Places(v, [1, 1]);
    ClearOfOwned(v, [1, 1], t, addr, 2);
    ClearOfOwned(v, [1, 1], t, tid, 1);
  }

  lemma NoLines(tab: int, sLen: nat, vLen: nat)
    ensures LinesOf(tab, Checked([], sLen, vLen)) == []
  {
  }

  lemma JoinLines(tab: int, a: seq<Instr>, b: seq<Instr>)
    ensures LinesOf(tab, a + b) == LinesOf(tab, a) + LinesOf(tab, b)
  {
  }

  function SlotTemps(s: seq<int>, out: nat, ptr: nat): SlotAddr.SlotRegs
    requires Room(s, [1, 1, 1, 1])
  {
    var t := Places(s, [1, 1, 1, 1]);
    SlotAddr.SlotRegs(t[3], t[0], t[1], t[2], out, ptr)
  }

  /** Four temporaries are three and then one. */
  lemma FourTemps(s: seq<int>)
    requires Room(s, [1, 1, 1, 1])
    ensures Room(s, [1, 1, 1]) && Room(AfterTaking(s, [1, 1, 1]), [1])
    ensures Places(s, [1, 1, 1, 1]) == Places(s, [1, 1, 1]) + Places(AfterTaking(s, [1, 1, 1]), [1])
  {
    hide Scan, Fill;
    assert [1, 1, 1] + [1] == [1, 1, 1, 1];
    Appended(s, [1, 1, 1], 1);
  }

  lemma {:induction false} Appended(s: seq<int>, sizes: seq<nat>, last: nat)
    requires Room(s, sizes + [last])
    ensures Room(s, sizes) && Room(AfterTaking(s, sizes), [last])
    ensures Places(s, sizes + [last]) == Places(s, sizes) + Places(AfterTaking(s, sizes), [last])
    decreases |sizes|
  {
    hide Scan, Fill;
    if sizes == [] {
      assert sizes + [last] == [last];
    } else {
      assert (sizes + [last])[1..] == sizes[1..] + [last];
      Appended(AfterOne(s, sizes[0]), sizes[1..], last);
    }
  }

  /** Given back first or last is the same. */
  lemma GiveTail(s: seq<int>, t: seq<nat>)
    requires |t| == 3 && Inside(s, [1, 1, 1], t)
    ensures Inside(s, [1, 1], [t[1], t[2]]) && t[0] + 1 <= |s|
    ensures Fill(AfterGiving(s, [1, 1], [t[1], t[2]]), t[0], 1, 0) == AfterGiving(s, [1, 1, 1], t)
  {
    hide Fill;
    GiveLater(s, [1, 1], [t[1], t[2]], t[0], 1);
    GiveNext(s, [1, 1, 1], t);
    assert [1, 1, 1][1..] == [1, 1] && t[1..] == [t[1], t[2]];
  }

  function InitTemps(s: seq<int>, v: seq<int>, slot: nat, gid: nat, addr: nat, waveOffset: nat,
                     signalOffset: nat): Worker.InitRegs
    requires Room(v, [1, 1]) && Room(s, [1, 1, 1])
  {
    var t, u := Places(v, [1, 1]), Places(s, [1, 1, 1]);
    Worker.InitRegs(t[0], t[1], u[0], u[1], u[2], slot, gid, addr, "END_INIT", waveOffset, signalOffset)
  }

  const PEND_VGPRS: seq<nat> := [1, 1, 1, 2, 1, 1]
  const PEND_SGPRS: seq<nat> := [1, 1, 1, 1, 1]

  function PendTemps(s: seq<int>, v: seq<int>): PendCode.PendRegs
    requires Room(v, PEND_VGPRS) && Room(s, PEND_SGPRS)
  {
    var t, u := Places(v, PEND_VGPRS), Places(s, PEND_SGPRS);
    PendCode.PendRegs(t[0], t[1], t[2], t[3], t[4], t[5], u[0], u[1], u[2], u[3], u[4])
  }

  // ---------------------------------------------------------------------------------------------
  // The registers of a block are apart
  // ---------------------------------------------------------------------------------------------

  lemma SlotTempsApart(s: seq<int>, out: nat, ptr: nat)
    requires Room(s, [1, 1, 1, 1]) && Owned(s, ptr, 2) && out != ptr + 1
    ensures SlotAddr.SlotApart(SlotTemps(s, out, ptr))
  {
    hide Room, Places;
    PlacesPlaced(s, [1, 1, 1, 1]);
    ClearOfOwned(s, [1, 1, 1, 1], Places(s, [1, 1, 1, 1]), ptr, 2);
  }

  lemma InitTempsApart(s: seq<int>, v: seq<int>, slot: nat, gid: nat, addr: nat, waveOffset: nat, signalOffset: nat)
    requires Room(v, [1, 1]) && Room(s, [1, 1, 1]) && Owned(s, slot, 2) && Owned(s, gid, 1) && Owned(v, addr, 2)
    ensures Worker.InitApart(InitTemps(s, v, slot, gid, addr, waveOffset, signalOffset))
  {
    hide Room, Places;
    PlacesPlaced(v, [1, 1]);
    ClearOfOwned(v, [1, 1], Places(v, [1, 1]), addr, 2);
    PlacesPlaced(s, [1, 1, 1]);
    ClearOfOwned(s, [1, 1, 1], Places(s, [1, 1, 1]), slot, 2);
    ClearOfOwned(s, [1, 1, 1], Places(s, [1, 1, 1]), gid, 1);
  }

  /** Whatever the allocator gives the prefetch loop, its registers meet the conditions under which the
      emitted loop was proved to be the filter. */
  lemma PendTempsApart(s: seq<int>, v: seq<int>, a: PendCode.PendArgs)
    requires Room(v, PEND_VGPRS) && Room(s, PEND_SGPRS)
    requires Owned(s, a.slot, 2) && Owned(s, a.out, 1) && Owned(v, a.tid, 1) && a.out !in {a.slot, a.slot + 1}
    ensures PendCode.Separate(PendTemps(s, v), a)
  {
    hide Room, Places;
    PlacesPlaced(v, PEND_VGPRS);
    ClearOfOwned(v, PEND_VGPRS, Places(v, PEND_VGPRS), a.tid, 1);
    PlacesPlaced(s, PEND_SGPRS);
    ClearOfOwned(s, PEND_SGPRS, Places(s, PEND_SGPRS), a.slot, 2);
    ClearOfOwned(s, PEND_SGPRS, Places(s, PEND_SGPRS), a.out, 1);
  }

  /** But the loop has given them back: the first scalar register that the caller's code takes inside the
      loop is s_exec_save, which the loop still carries. */
  lemma BodyGetsExecSave(g: Gen, name: string)
    requires !IsOff(name) && Room(g.v, PEND_VGPRS) && Room(g.s, PEND_SGPRS)
    ensures Safe(g, Cmd.NewSgpr(name, 1, 1))
    ensures Do(g, Cmd.NewSgpr(name, 1, 1)).1 == Got(Some(Sgpr(name, PendTemps(g.s, g.v).execSave, 1, 1)))
  {
    hide Scan, Fill, IsOff, Room, Places;
    RoomNext(g.s, PEND_SGPRS);
  }
}

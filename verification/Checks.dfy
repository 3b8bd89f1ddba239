/** The memory instructions are checked after they have been written: an operand that does not suit
    gets the line a second time, with the complaint behind it. */
module Checks {
  import opened Isa
  import PendCode
  import Worker

  /** What is wrong with an instruction, for an address in a scalar variable of length sLen or in a vector
      variable of length vLen; "" when nothing is. */
  function Complaint(i: Instr, sLen: nat, vLen: nat): string {
    match i
    case SLoad(_, _, _) => if sLen != 2 then "base addr reg not 64-bit" else ""
    case SStore(_, _, _) => if sLen != 2 then "base addr reg not 64-bit" else ""
    case SAtomic(_, _, _, _) => if sLen != 2 then "base addr reg not 64-bit" else ""
    case FlatLoad(_, _, offset) => FlatComplaint(vLen, offset)
    case FlatStore(_, _, offset) => FlatComplaint(vLen, offset)
    case _ => ""
  }

  function FlatComplaint(vLen: nat, offset: nat): string {
    if vLen != 2 then "base addr reg not 64-bit for 64-bit addr mode"
    else if offset > 4095 then "imm_offset over 13-bit int"
    else ""
  }

  /** An instruction and the line of its complaint. */
  function CheckedOne(i: Instr, sLen: nat, vLen: nat): (r: seq<Instr>)
    ensures r == [i] <==> Complaint(i, sLen, vLen) == ""
    ensures |r| >= 1 && r[0] == i
  {
    if Complaint(i, sLen, vLen) == "" then [i] else [i, Faulty(i, Complaint(i, sLen, vLen))]
  }

  function Checked(code: seq<Instr>, sLen: nat, vLen: nat): (r: seq<Instr>) {
    if code == [] then [] else Checked(code[..|code| - 1], sLen, vLen) + CheckedOne(code[|code| - 1], sLen, vLen)
  }

  /** Nothing to complain about. */
  predicate Clean(code: seq<Instr>, sLen: nat, vLen: nat) {
    forall i :: 0 <= i < |code| ==> Complaint(code[i], sLen, vLen) == ""
  }

  lemma {:induction false} CleanIsSame(code: seq<Instr>, sLen: nat, vLen: nat)
    requires Clean(code, sLen, vLen)
    ensures Checked(code, sLen, vLen) == code
  {
    if code != [] {
      hide CheckedOne, Complaint;
      CleanIsSame(code[..|code| - 1], sLen, vLen);
      assert code == code[..|code| - 1] + [code[|code| - 1]];
    }
  }

  lemma {:induction false} ComplaintsShow(code: seq<Instr>, sLen: nat, vLen: nat)
    ensures |Checked(code, sLen, vLen)| >= |code|
    ensures !Clean(code, sLen, vLen) ==> |Checked(code, sLen, vLen)| > |code|
  {
    if code != [] {
      hide CheckedOne, Complaint;
      var n := |code| - 1;
      ComplaintsShow(code[..n], sLen, vLen);
      OneShows(code[n], sLen, vLen);
      if Clean(code[..n], sLen, vLen) && Complaint(code[n], sLen, vLen) == "" {
        assert forall i :: 0 <= i < n ==> code[..n][i] == code[i];
      }
    }
  }

  lemma OneShows(i: Instr, sLen: nat, vLen: nat)
    ensures |CheckedOne(i, sLen, vLen)| == if Complaint(i, sLen, vLen) == "" then 1 else 2
  {
    hide Complaint;
  }

  /** A block is written without complaint exactly when there is nothing to complain about. */
  lemma {:induction false} CheckedIff(code: seq<Instr>, sLen: nat, vLen: nat)
    ensures Checked(code, sLen, vLen) == code <==> Clean(code, sLen, vLen)
  {
    hide Checked, Clean;
    ComplaintsShow(code, sLen, vLen);
    if Clean(code, sLen, vLen) { CleanIsSame(code, sLen, vLen); }
  }

  lemma CleanBoth(a: seq<Instr>, b: seq<Instr>, sLen: nat, vLen: nat)
    ensures Clean(a + b, sLen, vLen) <==> Clean(a, sLen, vLen) && Clean(b, sLen, vLen)
  {
    hide Complaint;
    forall i | 0 <= i < |a| ensures (a + b)[i] == a[i] {}
    forall i | 0 <= i < |b| ensures (a + b)[|a| + i] == b[i] {}
    if Clean(a, sLen, vLen) && Clean(b, sLen, vLen) {
      forall i | 0 <= i < |a + b| ensures Complaint((a + b)[i], sLen, vLen) == "" {
        if i >= |a| { assert (a + b)[i] == b[i - |a|]; }
      }
    }
  }

  // ---------------------------------------------------------------------------------------------
  // The blocks of the protocol
  // ---------------------------------------------------------------------------------------------

  predicate Accesses(i: Instr) {
    i.SLoad? || i.SStore? || i.SAtomic? || i.FlatLoad? || i.FlatStore?
  }

  lemma QuietBlock(code: seq<Instr>, sLen: nat, vLen: nat)
    requires forall i :: 0 <= i < |code| ==> !Accesses(code[i])
    ensures Clean(code, sLen, vLen)
  {
  }

  /** A block with one access. */
  lemma OneAccess(code: seq<Instr>, k: nat, sLen: nat, vLen: nat)
    requires k < |code| && forall i :: 0 <= i < |code| && i != k ==> !Accesses(code[i])
    ensures Clean(code, sLen, vLen) <==> Complaint(code[k], sLen, vLen) == ""
  {
  }

  lemma InitParts(r: Worker.InitRegs, sLen: nat, vLen: nat)
    ensures Clean(Worker.InitReset(r), sLen, vLen) <==> sLen == 2
    ensures Clean(Worker.InitDelay(), sLen, vLen) && Clean(Worker.InitAddress(r), sLen, vLen)
    ensures Clean(Worker.InitRegister(r), sLen, vLen) <==> sLen == 2
    ensures Clean(Worker.InitClear(r), sLen, vLen) <==> vLen == 2 && 4 * r.signalOffset <= 4095
  {
    hide Clean, Complaint;
    OneAccess(Worker.InitReset(r), 4, sLen, vLen);
    QuietBlock(Worker.InitDelay(), sLen, vLen);
    OneAccess(Worker.InitRegister(r), 1, sLen, vLen);
    QuietBlock(Worker.InitAddress(r), sLen, vLen);
    OneAccess(Worker.InitClear(r), 1, sLen, vLen);
    ComplaintsOf(r.sTmp, r.slot, 0, sLen, vLen);
    ComplaintsOf(r.sigIdx, r.slot, 4 * r.waveOffset, sLen, vLen);
    ComplaintsOf(r.addr, r.tmp1, 4 * r.signalOffset, sLen, vLen);
  }

  lemma ComplaintsOf(d: nat, b: nat, o: nat, sLen: nat, vLen: nat)
    ensures Complaint(SLoad(d, b, o), sLen, vLen) == "" <==> sLen == 2
    ensures Complaint(SStore(d, b, o), sLen, vLen) == "" <==> sLen == 2
    ensures Complaint(SAtomic(false, d, b, o), sLen, vLen) == "" <==> sLen == 2
    ensures Complaint(FlatLoad(d, b, o), sLen, vLen) == "" <==> vLen == 2 && o <= 4095
    ensures Complaint(FlatStore(d, b, o), sLen, vLen) == "" <==> vLen == 2 && o <= 4095
  {
  }

  /** Registration: both addresses have to be pairs, and the slots must not lie too far behind. */
  lemma {:induction false} InitClean(r: Worker.InitRegs, sLen: nat, vLen: nat)
    ensures Checked(Worker.InitCode(r), sLen, vLen) == Worker.InitCode(r) <==>
      sLen == 2 && vLen == 2 && 4 * r.signalOffset <= 4095
  {
    hide Checked, Clean, Worker.InitReset, Worker.InitDelay, Worker.InitRegister, Worker.InitAddress, Worker.InitClear;
    CheckedIff(Worker.InitCode(r), sLen, vLen);
    InitParts(r, sLen, vLen);
    var a, b, c, d := Worker.InitReset(r), Worker.InitDelay(), Worker.InitRegister(r), Worker.InitAddress(r);
    CleanBoth(a + b + c + d, Worker.InitClear(r), sLen, vLen);
    CleanBoth(a + b + c, d, sLen, vLen);
    CleanBoth(a + b, c, sLen, vLen);
    CleanBoth(a, b, sLen, vLen);
  }

  lemma DeinitClean(tmp: nat, slot: nat, waveOffset: nat, sLen: nat)
    ensures var code := Worker.DeinitCode(tmp, slot, waveOffset); Checked(code, sLen, 2) == code <==> sLen == 2
  {
    hide Checked;
    var code := Worker.DeinitCode(tmp, slot, waveOffset);
    CheckedIff(code, sLen, 2);
    assert code[1] == SAtomic(true, tmp, slot, 4 * waveOffset);
  }

  lemma SendClean(addr: nat, signal: nat, signalOffset: nat, vLen: nat)
    ensures var code := Worker.SendCode(addr, signal, signalOffset);
      Checked(code, 2, vLen) == code <==> vLen == 2 && 4 * signalOffset <= 4095
  {
    hide Checked;
    var code := Worker.SendCode(addr, signal, signalOffset);
    CheckedIff(code, 2, vLen);
    assert code[0] == FlatStore(addr, signal, 4 * signalOffset);
  }

  lemma PendParts(r: PendCode.PendRegs, a: PendCode.PendArgs, sLen: nat)
    ensures Clean(PendCode.PendSetup(r, a), sLen, 2) && Clean(PendCode.PendHead(r, a), sLen, 2)
    ensures Clean(PendCode.PendCount(r, a), sLen, 2) <==> sLen == 2
    ensures Clean(PendCode.PendRead(r, a), sLen, 2) <==> 4 * a.signalOffset <= 4095
    ensures Clean(PendCode.PendTest(r, a), sLen, 2) && Clean(PendCode.PendSelect(r, a), sLen, 2)
    ensures Clean(PendCode.PendTake(r, a), sLen, 2) && Clean(PendCode.PendShift(r, a), sLen, 2)
  {
    hide Clean, Complaint;
    QuietBlock(PendCode.PendSetup(r, a), sLen, 2);
    QuietBlock(PendCode.PendHead(r, a), sLen, 2);
    OneAccess(PendCode.PendCount(r, a), 0, sLen, 2);
    OneAccess(PendCode.PendRead(r, a), 0, sLen, 2);
    QuietBlock(PendCode.PendTest(r, a), sLen, 2);
    QuietBlock(PendCode.PendSelect(r, a), sLen, 2);
    QuietBlock(PendCode.PendTake(r, a), sLen, 2);
    QuietBlock(PendCode.PendShift(r, a), sLen, 2);
    ComplaintsOf(r.waveNum, a.slot, 4 * a.waveOffset, sLen, 2);
    ComplaintsOf(r.signal, r.signalAddr, 4 * a.signalOffset, sLen, 2);
  }

  /** The prefetch loop takes its own address pair. */
  lemma {:induction false} PendClean(r: PendCode.PendRegs, a: PendCode.PendArgs, sLen: nat)
    ensures var code := PendCode.PendSetup(r, a) + PendCode.PendLoop(r, a);
      Checked(code, sLen, 2) == code <==> sLen == 2 && 4 * a.signalOffset <= 4095
  {
    hide Checked, Clean, PendCode.PendSetup, PendCode.PendHead, PendCode.PendCount, PendCode.PendRead,
         PendCode.PendTest, PendCode.PendSelect, PendCode.PendTake, PendCode.PendShift;
    CheckedIff(PendCode.PendSetup(r, a) + PendCode.PendLoop(r, a), sLen, 2);
    PendParts(r, a, sLen);
    CleanBoth(PendCode.PendSetup(r, a), PendCode.PendLoop(r, a), sLen, 2);
    var b := PendCode.PendHead(r, a) + PendCode.PendCount(r, a);
    var c := b + PendCode.PendRead(r, a) + PendCode.PendTest(r, a);
    var d := c + PendCode.PendSelect(r, a);
    CleanBoth(d + PendCode.PendTake(r, a), PendCode.PendShift(r, a), sLen, 2);
    CleanBoth(d, PendCode.PendTake(r, a), sLen, 2);
    CleanBoth(c, PendCode.PendSelect(r, a), sLen, 2);
    CleanBoth(b + PendCode.PendRead(r, a), PendCode.PendTest(r, a), sLen, 2);
    CleanBoth(b, PendCode.PendRead(r, a), sLen, 2);
    CleanBoth(PendCode.PendHead(r, a), PendCode.PendCount(r, a), sLen, 2);
  }
}

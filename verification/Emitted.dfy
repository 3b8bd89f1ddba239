/** From the text the writer appended to what a wave does that runs it: the prefetch loop, end to end. */
module Emitted {
  import opened Isa
  import opened Prefetch
  import opened Generator
  import opened Temps
  import opened KernelWriters
  import PendBody
  import PendCode
  import PendRun

  /** The program a text is. */
  function Instructions(text: seq<Line>): (code: seq<Instr>)
    ensures |code| == |text| && forall i :: 0 <= i < |text| ==> code[i] == text[i].text
  {
    seq(|text|, i requires 0 <= i < |text| => text[i].text)
  }

  lemma BlockStands(before: seq<Line>, tab: int, block: seq<Instr>, after: seq<Line>)
    ensures At(Instructions(before + LinesOf(tab, block) + after), |before|, block)
  {
  }

  lemma LoopParts(code: seq<Instr>, q: nat, r: PendCode.PendRegs, a: PendCode.PendArgs)
    requires At(code, q, PendCode.PendSetup(r, a) + PendCode.PendLoop(r, a))
    ensures At(code, q, PendCode.PendSetup(r, a)) && At(code, q + 8, PendCode.PendLoop(r, a))
    ensures q + 8 < |code| && code[q + 8] == Label(a.begin)
    ensures forall i :: q <= i < q + 8 ==> !code[i].Label?
  {
    var s, l := PendCode.PendSetup(r, a), PendCode.PendLoop(r, a);
    assert |s| == 8 && |l| == 27;
    PartAt(code, q, s + l, 0, 8);
    PartAt(code, q, s + l, 8, 35);
    assert (s + l)[0..8] == s && (s + l)[8..35] == l;
    assert l[0] == Label(a.begin);
    forall i | q <= i < q + 8 ensures !code[i].Label? { assert code[q + (i - q)] == s[i - q]; }
  }

  /** An instruction for the caller's code: it writes registers that were taken when f_s_pend_signal was
      called, other than the slot address and v_tid_x, and leaves exec_hi alone. */
  ghost predicate WritesOwned(i: Instr, s: seq<int>, v: seq<int>, a: PendCode.PendArgs) {
    && !i.Raw? && !i.Directive? && !i.Faulty? && !(i.SMov? && i.dst.ExecHi?)
    && (forall d :: d in ScalarsWritten(i) ==> Owned(s, d, 1) && d !in {a.slot, a.slot + 1})
    && (forall d :: d in VectorsWritten(i) ==> Owned(v, d, 1) && d != a.tid)
  }

  /** The loop carries the slot address, v_tid_x and registers that were free before. */
  lemma {:induction false} OwnedSpares(i: Instr, s: seq<int>, v: seq<int>, a: PendCode.PendArgs)
    requires Room(v, PEND_VGPRS) && Room(s, PEND_SGPRS) && WritesOwned(i, s, v, a)
    ensures PendBody.Spares(i, PendTemps(s, v), a)
  {
    hide Room, Places, ScalarsWritten, VectorsWritten;
    PlacesPlaced(s, PEND_SGPRS);
    PlacesPlaced(v, PEND_VGPRS);
    forall d | d in ScalarsWritten(i) ensures d !in PendBody.CarriedScalars(PendTemps(s, v), a) {
      ClearOfOwned(s, PEND_SGPRS, Places(s, PEND_SGPRS), d, 1);
    }
    forall d | d in VectorsWritten(i) ensures d !in PendBody.CarriedVectors(PendTemps(s, v), a) {
      ClearOfOwned(v, PEND_VGPRS, Places(v, PEND_VGPRS), d, 1);
    }
  }

  /** What f_s_pend_signal, the caller and f_e_pend_signal append. */
  function LoopText(tab: int, r: PendCode.PendRegs, a: PendCode.PendArgs, body: seq<Line>, tabEnd: int): seq<Line> {
    LinesOf(tab, PendCode.PendSetup(r, a) + PendCode.PendLoop(r, a)) + body +
    LinesOf(tabEnd, [Branch(a.begin), Label(a.end)])
  }

  lemma {:induction false} BodyLines(s: seq<int>, v: seq<int>, before: seq<Line>, tab: int, body: seq<Line>,
                                     tabEnd: int, after: seq<Line>, a: PendCode.PendArgs)
    requires Room(v, PEND_VGPRS) && Room(s, PEND_SGPRS)
    requires forall i :: 0 <= i < |body| ==> WritesOwned(body[i].text, s, v, a)
    ensures var r := PendTemps(s, v);
      var p := |before| + 35;
      PendBody.SparingLines(Instructions(before + LoopText(tab, r, a, body, tabEnd) + after), p, p + |body| + 1, r, a)
  {
    hide Room, PendTemps, WritesOwned, PendBody.Spares;
    var r := PendTemps(s, v);
    var code, p := Instructions(before + LoopText(tab, r, a, body, tabEnd) + after), |before| + 35;
    forall i | p <= i < p + |body| + 1 ensures PendBody.Spares(code[i], r, a) {
      if i < p + |body| {
        assert code[i] == body[i - p].text;
        OwnedSpares(code[i], s, v, a);
      } else {
        assert code[i] == Branch(a.begin);
        JumpSpares(r, a);
      }
    }
  }

  lemma JumpSpares(r: PendCode.PendRegs, a: PendCode.PendArgs)
    ensures PendBody.Spares(Branch(a.begin), r, a)
  {
  }

  /** A wave that runs what f_s_pend_signal and f_e_pend_signal append to a text without their label, with
      the registers the allocator chose and the caller's code between them, follows the reference filter,
      whatever other waves write to memory: between any two deliveries less than nine apart no index
      repeats, 0 is never delivered, and every delivered index stood in a polled slot. All the caller has
      to see to is that its code writes registers it took before. */
  lemma {:induction false} EmittedLoopFollowsReference(s: seq<int>, v: seq<int>, before: seq<Line>, tab: int,
                                                       body: seq<Line>, tabEnd: int, after: seq<Line>,
                                    a: PendCode.PendArgs, w: Wave, setup: seq<Mem>,
                                    ws: seq<Wave>, scheds: seq<seq<Mem>>, os: seq<Outcome>)
    requires Room(v, PEND_VGPRS) && Room(s, PEND_SGPRS)
    requires Owned(s, a.slot, 2) && Owned(s, a.out, 1) && Owned(v, a.tid, 1) && a.out !in {a.slot, a.slot + 1}
    requires forall i :: 0 <= i < |before| ==> before[i].text != Label(a.begin)
    requires forall i :: 0 <= i < |body| ==> WritesOwned(body[i].text, s, v, a)
    requires PendRun.Entry(w, a) && w.pc == |before| && |setup| >= 8
    requires var code := Instructions(before + LoopText(tab, PendTemps(s, v), a, body, tabEnd) + after);
      PendBody.BodyTurns(code, |before| + 8, |body| + 1, a, ws, scheds, os) && ws[0] == Run(code, w, setup, 8)
    ensures var r := PendTemps(s, v);
      var code := Instructions(before + LoopText(tab, r, a, body, tabEnd) + after);
      PendRun.Turns(code, |before| + 8, r, a, PendRun.LowHalf(w.exec), ws, scheds, os)
    ensures var polls := PendRun.PollsAt(w.Scalar64(a.slot), a.signalOffset, PendRun.LowHalf(w.exec), scheds);
      os == Polling(START, polls).1 && FollowsReference(polls, os)
  {
    hide Run, Target, PendCode.PendSetup, PendCode.PendLoop, PendRun.TurnStep, PendRun.Entry, PendCode.Separate,
         PendRun.PollsAt, PendBody.BodyTurn, PendBody.SparingLines, WritesOwned, PendRun.Addressed, PendCode.Carries,
         Polling, FollowsReference, LinesOf, Instructions, PendTemps, Room, At, START, Wave.Scalar64, PendRun.LowHalf;
    var r := PendTemps(s, v);
    var block := PendCode.PendSetup(r, a) + PendCode.PendLoop(r, a);
    var rest := body + LinesOf(tabEnd, [Branch(a.begin), Label(a.end)]) + after;
    var code := Instructions(before + LoopText(tab, r, a, body, tabEnd) + after);
    var q, active := |before|, PendRun.LowHalf(w.exec);
    assert before + LoopText(tab, r, a, body, tabEnd) + after == before + LinesOf(tab, block) + rest;
    PendTempsApart(s, v, a);
    BlockStands(before, tab, block, rest);
    LoopParts(code, q, r, a);
    forall i | 0 <= i < q ensures code[i] != Label(a.begin) {
      assert code[i] == before[i].text;
    }
    LabelFound(code, a.begin, q + 8);
    BodyLines(s, v, before, tab, body, tabEnd, after, a);
    PendRun.SetupRuns(code, q, r, a, w, setup);
    PendRun.StartLength();
    PendBody.BodyTurnsAreTurns(code, q + 8, |body| + 1, r, a, w.Scalar64(a.slot), active, START, ws, scheds, os);
    PendRun.PrefetchLoop(code, q, r, a, w, setup, ws, scheds, os);
  }
}

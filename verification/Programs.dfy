/** From the text the writer appended to what a wave does that runs it: registration, retirement, counted
    loops and addresses, with the registers the allocator chose. */
module Programs {
  import opened Words
  import opened Isa
  import opened Generator
  import opened Temps
  import opened Signals
  import opened Checks
  import opened KernelWriters
  import opened Emitted
  import CounterLoop
  import LinearAddr
  import Machines
  import PendCode
  import Prefetch
  import Registers
  import SlotAddr
  import Worker

  /** No line carries this label. */
  ghost predicate Unlabelled(text: seq<Line>, name: string) {
    forall i :: 0 <= i < |text| ==> text[i].text != Label(name)
  }

  lemma UnlabelledCode(before: seq<Line>, rest: seq<Line>, name: string)
    requires Unlabelled(before, name)
    ensures forall i :: 0 <= i < |before| ==> Instructions(before + rest)[i] != Label(name)
  {
    var code := Instructions(before + rest);
    forall i | 0 <= i < |before| ensures code[i] != Label(name) {
      assert (before + rest)[i] == before[i];
    }
  }

  // ---------------------------------------------------------------------------------------------
  // Registration
  // ---------------------------------------------------------------------------------------------

  /** What f_init_signal_slot appends for address variables of two registers each. */
  function InitText(tab: int, s: seq<int>, v: seq<int>, slot: nat, gid: nat, addr: nat, waveOffset: nat,
                    signalOffset: nat): seq<Line>
    requires Room(v, [1, 1]) && Room(s, [1, 1, 1])
  {
    LinesOf(tab, Checked(Worker.InitCode(InitTemps(s, v, slot, gid, addr, waveOffset, signalOffset)), 2, 2))
  }

  /** The registration in the text. */
  lemma {:induction false} InitTextStands(tab: int, s: seq<int>, v: seq<int>, slot: nat, gid: nat, addr: nat, y: Layout,
                                          before: seq<Line>, after: seq<Line>)
    requires Room(v, [1, 1]) && Room(s, [1, 1, 1]) && 4 * y.signalOffset <= 4095 && Unlabelled(before, "END_INIT")
    requires Owned(s, slot, 2) && Owned(s, gid, 1) && Owned(v, addr, 2)
    ensures var r := InitTemps(s, v, slot, gid, addr, y.waveOffset, y.signalOffset);
      var text := InitText(tab, s, v, slot, gid, addr, y.waveOffset, y.signalOffset);
      var code := Instructions(before + text + after);
      && |text| == 18 && At(code, |before|, Worker.InitCode(r)) && Worker.InitApart(r)
      && At(code, |before| + 8, Worker.Registration(r)) && Target(code, "END_INIT") == |before| + 5
      && forall i :: 0 <= i < |before| ==> code[i] != Label("END_INIT")
  {
    hide Room, Places, Worker.InitCode, Checked, Worker.Registration, LinesOf, Instructions, Target, Worker.InitApart;
    var r := InitTemps(s, v, slot, gid, addr, y.waveOffset, y.signalOffset);
    InitClean(r, 2, 2);
    InitTempsApart(s, v, slot, gid, addr, y.waveOffset, y.signalOffset);
    var text := InitText(tab, s, v, slot, gid, addr, y.waveOffset, y.signalOffset);
    BlockStands(before, tab, Worker.InitCode(r), after);
    UnlabelledCode(before, text + after, "END_INIT");
    assert before + text + after == before + (text + after);
    var code := Instructions(before + text + after);
    EighteenLong(r);
    Worker.InitStands(code, |before|, r);
  }

  lemma EighteenLong(r: Worker.InitRegs)
    ensures |Worker.InitCode(r)| == 18
  {
    hide Log2Of;
  }

  /** A wave that enters what f_init_signal_slot appended to a text without its label, with its group number
      in register gid and the slot address in register pair slot, leaves it at its end, whatever other waves
      do to memory in between. If its group is one of the first 64 it first stores 0 at the slot address.
      Its atomic adds 1 to the counter, its last store clears the slot whose number k the atomic found, and
      every active lane ends with slot address + 4 k in the register pair addr. */
  lemma {:induction false} InitTextRuns(tab: int, s: seq<int>, v: seq<int>, slot: nat, gid: nat, addr: nat, y: Layout,
                                        before: seq<Line>, after: seq<Line>, w: Wave, sched: seq<Mem>,
                                        s1: Sys, s2: Sys, id: nat)
    requires Room(v, [1, 1]) && Room(s, [1, 1, 1]) && 4 * y.signalOffset <= 4095 && Unlabelled(before, "END_INIT")
    requires Owned(s, slot, 2) && Owned(s, gid, 1) && Owned(v, addr, 2)
    requires w.pc == |before| && |sched| >= 18 && Worker.SomeLane(w.exec, 0) && w.Scalar64(slot) == y.base
    requires var n := if SReg(w.sgpr, gid) < 64 then 8 else 6;
      && Enabled(s1, Register(id)) && Count(y, s1) < SLOTS && sched[n + 1] == s1.mem
      && Enabled(s2, Clear(id)) && s2.waves[id].slot == Count(y, s1) && sched[n + 8] == s2.mem
    ensures var text := InitText(tab, s, v, slot, gid, addr, y.waveOffset, y.signalOffset);
      var code := Instructions(before + text + after);
      var n := if SReg(w.sgpr, gid) < 64 then 8 else 6;
      && (forall k :: 0 <= k < n && !(n == 8 && k == 4) ==>
        Step(code, Run(code, w, sched, k), sched[k]).1 == sched[k])
      && (n == 8 ==> Step(code, Run(code, w, sched, 4), sched[4]).1 == sched[4][Effective(y.base, 0) := 0])
      && Step(code, Run(code, w, sched, n + 1), sched[n + 1]).1 == Apply(y, s1, Register(id)).mem
      && Step(code, Run(code, w, sched, n + 8), sched[n + 8]).1 == Apply(y, s2, Clear(id)).mem
      && (forall k :: n <= k < n + 10 && k != n + 1 && k != n + 8 ==>
        Step(code, Run(code, w, sched, k), sched[k]).1 == sched[k])
      && Run(code, w, sched, n + 10).pc == |before + text| && Run(code, w, sched, n + 10).exec == w.exec
      && forall l :: 0 <= l < 64 && w.exec[l] ==>
        Run(code, w, sched, n + 10).Lane64(addr, l) == (y.base + 4 * ReadMem(sched[n + 1], CounterAt(y))) % TWO64
  {
    hide Room, Places, Worker.InitCode, Checked, Worker.Registration, LinesOf, Instructions, Target, Run, Step, At,
         Worker.InitApart, InitText, Worker.SomeLane, Wave.Scalar64, Wave.Lane64, Apply, Enabled, Effective, CounterAt;
    var r := InitTemps(s, v, slot, gid, addr, y.waveOffset, y.signalOffset);
    var code := Instructions(before + InitText(tab, s, v, slot, gid, addr, y.waveOffset, y.signalOffset) + after);
    InitTextStands(tab, s, v, slot, gid, addr, y, before, after);
    Worker.InitRuns(y, s1, s2, id, code, |before|, r, w, sched);
  }

  /** What a worker's program is made of: registration, its own code, which may hold sends, retirement. */
  function WorkerText(init: seq<Line>, work: seq<Line>, deinit: seq<Line>): seq<Line> {
    init + work + deinit
  }

  /** What f_deinit_signal_slot appends for an address variable of two registers. */
  function DeinitText(tab: int, s: seq<int>, slot: nat, waveOffset: nat): seq<Line>
    requires Room(s, [1])
  {
    LinesOf(tab, Checked(Worker.DeinitCode(Places(s, [1])[0], slot, waveOffset), 2, 2))
  }

  /** What f_send_signal appends. */
  function SendText(tab: int, addr: nat, signal: nat, signalOffset: nat): seq<Line> {
    LinesOf(tab, Checked(Worker.SendCode(addr, signal, signalOffset), 2, 2))
  }

  /** A send in the worker's code: at line p of it, with the word in register x. */
  ghost predicate SendsIn(work: seq<Line>, p: nat, x: nat, addr: nat, signalOffset: nat) {
    exists tab :: p + 2 <= |work| && work[p..p + 2] == SendText(tab, addr, x, signalOffset)
  }

  /** The text of a worker is a script of the machine: its registration starts 8 lines into the text of
      f_init_signal_slot, and its retirement where that of f_deinit_signal_slot begins. */
  lemma {:induction false} WorkerTextIsLaid(tab: int, s: seq<int>, v: seq<int>, slot: nat, gid: nat, addr: nat,
                                            y: Layout, before: seq<Line>, work: seq<Line>, sends: map<nat, nat>,
                                            tabEnd: int, sEnd: seq<int>, after: seq<Line>)
    requires Apart(y) && 4 * y.signalOffset <= 4095 && Unlabelled(before, "END_INIT")
    requires Room(v, [1, 1]) && Room(s, [1, 1, 1]) && Owned(s, slot, 2) && Owned(s, gid, 1) && Owned(v, addr, 2)
    requires Room(sEnd, [1]) && Owned(sEnd, slot, 2)
    requires forall p :: p in sends ==>
      p >= |before| + 18 && SendsIn(work, p - |before| - 18, sends[p], addr, y.signalOffset)
    ensures var init := InitText(tab, s, v, slot, gid, addr, y.waveOffset, y.signalOffset);
      var deinit := DeinitText(tabEnd, sEnd, slot, y.waveOffset);
      var code := Instructions(before + WorkerText(init, work, deinit) + after);
      var r := InitTemps(s, v, slot, gid, addr, y.waveOffset, y.signalOffset);
      && r.slot == slot && r.addr == addr
      && Machines.Laid(Machines.Script(code, |before| + 8, r, sends, |before| + 18 + |work|, Places(sEnd, [1])[0]), y)
  {
    hide Room, Places, Worker.InitCode, Checked, Worker.Registration, Instructions, Target, Worker.InitApart, At,
         InitText, DeinitText, SendsIn, Owned, LinesOf;
    var init := InitText(tab, s, v, slot, gid, addr, y.waveOffset, y.signalOffset);
    var deinit := DeinitText(tabEnd, sEnd, slot, y.waveOffset);
    var all := before + WorkerText(init, work, deinit) + after;
    assert all == before + init + (work + deinit + after);
    InitTextStands(tab, s, v, slot, gid, addr, y, before, work + deinit + after);
    assert all == (before + init + work) + deinit + after;
    DeinitStands(tabEnd, sEnd, slot, y.waveOffset, before + init + work, after);
    forall p | p in sends
      ensures At(Instructions(all), p, Worker.SendCode(addr, sends[p], y.signalOffset))
    {
      assert all == (before + init) + work + (deinit + after);
      SendStands(before + init, work, deinit + after, p - |before| - 18, sends[p], addr, y.signalOffset);
    }
  }

  lemma {:induction false} DeinitStands(tab: int, s: seq<int>, slot: nat, waveOffset: nat, before: seq<Line>,
                                        after: seq<Line>)
    requires Room(s, [1]) && Owned(s, slot, 2)
    ensures var tmp := Places(s, [1])[0];
      && tmp !in {slot, slot + 1}
      && At(Instructions(before + DeinitText(tab, s, slot, waveOffset) + after), |before|,
            Worker.DeinitCode(tmp, slot, waveOffset))
  {
    hide Room, Places, Checked, Instructions, At, LinesOf, Worker.DeinitCode;
    var tmp := Places(s, [1])[0];
    PlacesPlaced(s, [1]);
    ClearOfOwned(s, [1], Places(s, [1]), slot, 2);
    DeinitClean(tmp, slot, waveOffset, 2);
    BlockStands(before, tab, Worker.DeinitCode(tmp, slot, waveOffset), after);
  }

  lemma {:induction false} SendStands(before: seq<Line>, work: seq<Line>, after: seq<Line>, p: nat, x: nat, addr: nat,
                                      signalOffset: nat)
    requires SendsIn(work, p, x, addr, signalOffset) && 4 * signalOffset <= 4095
    ensures At(Instructions(before + work + after), |before| + p, Worker.SendCode(addr, x, signalOffset))
  {
    hide Checked, Instructions, At, LinesOf, Worker.SendCode;
    var tab :| p + 2 <= |work| && work[p..p + 2] == SendText(tab, addr, x, signalOffset);
    SendClean(addr, x, signalOffset, 2);
    var block := Worker.SendCode(addr, x, signalOffset);
    assert before + work + after == (before + work[..p]) + LinesOf(tab, block) + (work[p + 2..] + after);
    BlockStands(before + work[..p], tab, block, work[p + 2..] + after);
  }

  // ---------------------------------------------------------------------------------------------
  // Counted loops
  // ---------------------------------------------------------------------------------------------

  /** What f_s_loop, the caller and f_e_loop append. */
  function CountedText(tab: int, cnt: nat, count: Opnd, name: string, body: seq<Line>, tabEnd: int): seq<Line> {
    LinesOf(tab, CounterLoop.LoopStart(cnt, count, name)) + body + LinesOf(tabEnd, CounterLoop.LoopEnd(cnt, name))
  }

  lemma {:induction false} CountedStands(tab: int, cnt: nat, count: Opnd, name: string, body: seq<Line>, tabEnd: int,
                                         before: seq<Line>, after: seq<Line>)
    requires Unlabelled(before, name)
    ensures var text := CountedText(tab, cnt, count, name, body, tabEnd);
      var code := Instructions(before + text + after);
      && |text| == |body| + 5
      && At(code, |before|, CounterLoop.LoopCode(cnt, count, name, Instructions(body)))
      && forall i :: 0 <= i < |before| ==> code[i] != Label(name)
  {
    var text := CountedText(tab, cnt, count, name, body, tabEnd);
    var all := before + text + after;
    assert all == before + (text + after);
    UnlabelledCode(before, text + after, name);
    var b := CounterLoop.LoopCode(cnt, count, name, Instructions(body));
    forall i | 0 <= i < |b| ensures Instructions(all)[|before| + i] == b[i] {
      assert all[|before| + i] == text[i];
    }
  }

  /** A wave that enters a counted loop with count n in its operand runs the body exactly n times, 2^32
      times for n = 0, and leaves the loop at its end: whatever the body is, as long as it leaves the
      counter alone and comes to its own end. */
  lemma {:induction false} CountedTextRuns(tab: int, cnt: nat, count: Opnd, name: string, body: seq<Line>, tabEnd: int,
                                           before: seq<Line>, after: seq<Line>, w: Wave, m: Mem, ws: seq<Wave>,
                                           bodies: seq<seq<Mem>>, ends: seq<seq<Mem>>)
    requires Unlabelled(before, name) && w.pc == |before| && ws != []
    requires var code := Instructions(before + CountedText(tab, cnt, count, name, body, tabEnd) + after);
      && ws[0] == Run(code, w, [m], 1)
      && CounterLoop.Rounds(code, |before| + 1, |before| + 2 + |body|, cnt, ws, bodies, ends)
    ensures var n := w.Value(count, 0);
      var turns := if n == 0 then TWO32 else n;
      && |bodies| <= turns
      && ws[|bodies|].pc == if |bodies| == turns
        then |before + CountedText(tab, cnt, count, name, body, tabEnd)| else |before| + 1
  {
    hide CounterLoop.Rounds, CounterLoop.LoopCode, CountedText, Run, At, Wave.Value, Instructions;
    CountedStands(tab, cnt, count, name, body, tabEnd, before, after);
    var code := Instructions(before + CountedText(tab, cnt, count, name, body, tabEnd) + after);
    CounterLoop.LoopRuns(code, |before|, cnt, count, name, Instructions(body), w, m, ws, bodies, ends);
  }

  /** With a body without branches that never writes the counter nothing has to be asked of the run: after
      1 + turns * (|body| + 4) steps the wave is behind the loop. */
  lemma {:induction false} CountedTextEnds(tab: int, cnt: nat, count: Opnd, name: string, body: seq<Line>, tabEnd: int,
                                           before: seq<Line>, after: seq<Line>, w: Wave, sched: seq<Mem>)
    requires Unlabelled(before, name) && w.pc == |before| && CounterLoop.Spares(Instructions(body), cnt)
    requires var turns := if w.Value(count, 0) == 0 then TWO32 else w.Value(count, 0);
      |sched| >= 1 + Times(turns, |body| + 4)
    ensures var text := CountedText(tab, cnt, count, name, body, tabEnd);
      var turns := if w.Value(count, 0) == 0 then TWO32 else w.Value(count, 0);
      Run(Instructions(before + text + after), w, sched, 1 + Times(turns, |body| + 4)).pc == |before + text|
  {
    hide CounterLoop.Spares, CounterLoop.LoopCode, CountedText, Run, At, Wave.Value, Instructions, Times;
    CountedStands(tab, cnt, count, name, body, tabEnd, before, after);
    var code := Instructions(before + CountedText(tab, cnt, count, name, body, tabEnd) + after);
    var turns := CounterLoop.RoundCount(w.Value(count, 0));
    StepsAre(|body|, turns);
    CounterLoop.StraightLoop(code, |before|, cnt, count, name, Instructions(body), w, sched, turns);
  }

  lemma {:induction false} StepsAre(length: nat, k: nat)
    ensures CounterLoop.StepsOf(length, k) == 1 + Times(k, length + 4)
  {
    if k > 0 { StepsAre(length, k - 1); }
  }

  // ---------------------------------------------------------------------------------------------
  // Leaving the prefetch loop
  // ---------------------------------------------------------------------------------------------

  /** A wave at the head of the prefetch loop, with the caller's code and the jump back in place, is behind
      everything f_s_pend_signal and f_e_pend_signal appended after 8 steps exactly when the counter word
      it loads is 0. */
  lemma {:induction false} LoopIsLeft(s: seq<int>, v: seq<int>, before: seq<Line>, tab: int, body: seq<Line>,
                                      tabEnd: int, after: seq<Line>, a: PendCode.PendArgs, w: Wave, active: Mask,
                                      f: Prefetch.Fetch, sched: seq<Mem>)
    requires Room(v, PEND_VGPRS) && Room(s, PEND_SGPRS)
    requires Owned(s, a.slot, 2) && Owned(s, a.out, 1) && Owned(v, a.tid, 1) && a.out !in {a.slot, a.slot + 1}
    requires Unlabelled(before, a.end) && Unlabelled(body, a.end) && a.end != a.begin
    requires PendCode.Carries(w, PendTemps(s, v), a, active, f) && w.pc == |before| + 8 && |sched| >= 8
    ensures var text := LoopText(tab, PendTemps(s, v), a, body, tabEnd);
      var code := Instructions(before + text + after);
      Run(code, w, sched, 8).pc == |before + text| <==>
        ReadMem(sched[3], Effective(w.Scalar64(a.slot), 4 * a.waveOffset)) == 0
  {
    hide Run, Target, PendCode.PendSetup, PendCode.PendLoop, PendCode.Separate, PendCode.Carries, LinesOf,
         PendTemps, Room, At, Wave.Scalar64, Effective, ReadMem, LoopText, Instructions;
    var r := PendTemps(s, v);
    var text := LoopText(tab, r, a, body, tabEnd);
    var code := Instructions(before + text + after);
    PendTempsApart(s, v, a);
    EndFound(before, tab, r, a, body, tabEnd, after);
    PendCode.CountStage(code, |before| + 8, r, a, w, active, f, sched);
    RunStep(code, w, sched, 7);
    NextLine(code, Run(code, w, sched, 7), sched[7], |before + text|);
  }

  /** From the end label to the line behind it; from the slot load to the next line. */
  lemma NextLine(code: seq<Instr>, w: Wave, m: Mem, end: nat)
    requires w.pc < |code| && !code[w.pc].Branch? && !code[w.pc].BranchIf?
    ensures Step(code, w, m).0.pc == end <==> w.pc + 1 == end
  {
    hide Effect, Target;
  }

  lemma {:induction false} LinesOfLoop(before: seq<Line>, tab: int, r: PendCode.PendRegs, a: PendCode.PendArgs,
                                       body: seq<Line>, tabEnd: int, after: seq<Line>)
    ensures var text := LoopText(tab, r, a, body, tabEnd);
      var all := before + text + after;
      var block := PendCode.PendSetup(r, a) + PendCode.PendLoop(r, a);
      && |text| == 37 + |body| && |block| == 35
      && (forall i :: 0 <= i < |before| ==> all[i] == before[i])
      && (forall i :: 0 <= i < 35 ==> all[|before| + i].text == block[i])
      && (forall i :: 0 <= i < |body| ==> all[|before| + 35 + i] == body[i])
      && all[|before| + 35 + |body|].text == Branch(a.begin) && all[|before| + 36 + |body|].text == Label(a.end)
  {
    BlockLabels(r, a);
    hide PendCode.PendSetup, PendCode.PendLoop;
  }

  lemma {:induction false} EndFound(before: seq<Line>, tab: int, r: PendCode.PendRegs, a: PendCode.PendArgs,
                                    body: seq<Line>, tabEnd: int, after: seq<Line>)
    requires Unlabelled(before, a.end) && Unlabelled(body, a.end) && a.end != a.begin
    ensures var text := LoopText(tab, r, a, body, tabEnd);
      var code := Instructions(before + text + after);
      && |text| == 37 + |body| && At(code, |before| + 8, PendCode.PendLoop(r, a))
      && Target(code, a.end) == |before| + 36 + |body| && code[|before| + 36 + |body|] == Label(a.end)
      && code[|before| + 15].FlatLoad?
  {
    hide LoopText, Target, PendCode.PendSetup, PendCode.PendLoop;
    var block := PendCode.PendSetup(r, a) + PendCode.PendLoop(r, a);
    var code := Instructions(before + LoopText(tab, r, a, body, tabEnd) + after);
    BlockLabels(r, a);
    LinesOfLoop(before, tab, r, a, body, tabEnd, after);
    LoopParts(code, |before|, r, a);
    assert code[|before| + 15] == block[15];
    forall i | 0 <= i < |before| + 36 + |body| ensures code[i] != Label(a.end) {
      if |before| <= i < |before| + 35 {
        assert code[|before| + (i - |before|)] == block[i - |before|];
      } else if |before| + 35 <= i < |before| + 35 + |body| {
        assert code[|before| + 35 + (i - |before| - 35)] == body[i - |before| - 35].text;
      }
    }
    LabelFound(code, a.end, |before| + 36 + |body|);
  }

  lemma BlockLabels(r: PendCode.PendRegs, a: PendCode.PendArgs)
    ensures var block := PendCode.PendSetup(r, a) + PendCode.PendLoop(r, a);
      |block| == 35 && block[15].FlatLoad? && forall i :: 0 <= i < 35 && block[i].Label? ==> block[i] == Label(a.begin)
  {
  }

  // ---------------------------------------------------------------------------------------------
  // Addresses
  // ---------------------------------------------------------------------------------------------

  /** What f_linear_addr appends, run by a wave with its group number in register gid and its thread numbers
      in vector register tid, leaves in the register pair addr of every active lane base + 4 (gid * size +
      tid), exactly when that offset fits in 32 bits and the size is a power of two or the group is 0. */
  lemma {:induction false} LinearTextRuns(tab: int, v: seq<int>, gid: nat, tid: nat, base: nat, addr: nat, size: int,
                                          before: seq<Line>, after: seq<Line>, w: Wave, sched: seq<Mem>, l: nat)
    requires Room(v, [1, 1]) && Owned(v, addr, 2) && Owned(v, tid, 1) && 1 <= size < 0x2000_0000
    requires w.pc == |before| && |sched| >= 5 && l < 64 && w.exec[l]
    ensures var text := LinesOf(tab, LinearAddr.LinearCode(LinearTemps(v, gid, tid, base, addr), size));
      var w' := Run(Instructions(before + text + after), w, sched, 5);
      var g, t := SReg(w.sgpr, gid), VReg(w.vgpr, tid, l);
      && w'.pc == |before + text|
      && (w'.Lane64(addr, l) == (w.Scalar64(base) + 4 * (g * size + t)) % TWO64 <==>
        4 * (g * size + t) < TWO32 && (g == 0 || LinearAddr.IsPower(size)))
  {
    hide Room, Places, LinearAddr.LinearCode, LinesOf, Instructions, Run, Through, At, Wave.Lane64, Wave.Scalar64,
         LinearAddr.LinearApart, Owned;
    var r := LinearTemps(v, gid, tid, base, addr);
    var block := LinearAddr.LinearCode(r, size);
    LinearTempsApart(v, gid, tid, base, addr);
    BlockStands(before, tab, block, after);
    LinearShape(r, size);
    RunStraight(Instructions(before + LinesOf(tab, block) + after), |before|, block, w, sched, 5);
    LinearAddr.LinearAddress(r, size, w, sched, l);
    BytesAre(SReg(w.sgpr, gid), size, VReg(w.vgpr, tid, l));
  }

  lemma BytesAre(g: nat, size: nat, t: nat)
    ensures LinearAddr.Bytes(g, size, t) == 4 * (g * size + t)
  {
  }

  lemma LinearShape(r: LinearAddr.LinearRegs, size: int)
    ensures Straight(LinearAddr.LinearCode(r, size)) && |LinearAddr.LinearCode(r, size)| == 5
  {
    hide Log2Of;
  }

  /** What f_signal_slot_addr appends leaves in the register pair out the pointer from the register pair ptr
      plus, for each compute unit before the one the wave runs on, the slots of one unit: 4 bytes each, their
      number rounded down to a power of two. */
  lemma {:induction false} SlotTextRuns(tab: int, s: seq<int>, ptr: nat, out: nat, size: int, before: seq<Line>,
                                        after: seq<Line>, w: Wave, sched: seq<Mem>)
    requires Room(s, [1, 1, 1, 1]) && Owned(s, ptr, 2) && out != ptr + 1 && size < 0x200_0000
    requires w.pc == |before| && |sched| >= 17
    ensures var text := LinesOf(tab, SlotAddr.SlotCode(SlotTemps(s, out, ptr), size));
      && |text| <= 17
      && var w' := Run(Instructions(before + text + after), w, sched, |text|);
      && w'.pc == |before + text|
      && w'.Scalar64(out) ==
        (w.Scalar64(ptr) + (16 * (w.hwId / 0x2000 % 4) + w.hwId / 0x100 % 16) * (4 * Pow2(Log2Of(size)))) % TWO64
  {
    hide Room, Places, SlotAddr.SlotCode, LinesOf, Instructions, Run, Through, At, Wave.Scalar64, SlotAddr.SlotApart,
         Owned, Pow2, Log2Of;
    var r := SlotTemps(s, out, ptr);
    var block := SlotAddr.SlotCode(r, size);
    SlotTempsApart(s, out, ptr);
    BlockStands(before, tab, block, after);
    SlotShape(r, size);
    SlotAddr.SlotAddress(r, size, w, sched);
    RunStraight(Instructions(before + LinesOf(tab, block) + after), |before|, block, w, sched, |block|);
  }

  lemma {:induction false} SlotShape(r: SlotAddr.SlotRegs, size: int)
    ensures Straight(SlotAddr.SlotCode(r, size))
  {
    hide Log2Of, SlotAddr.FieldImm;
    ExtractsStraight(r.dest, SlotAddr.SlotOuts(r), SlotAddr.FIELDS);
  }

  lemma {:induction false} ExtractsStraight(dest: nat, outs: seq<Registers.Option<nat>>, n: nat)
    requires n <= |outs| == SlotAddr.FIELDS
    ensures Straight(SlotAddr.Extracts(dest, outs, n))
  {
    hide SlotAddr.FieldImm;
    if n > 0 { ExtractsStraight(dest, outs, n - 1); }
  }
}

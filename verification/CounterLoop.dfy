/** The counted loop: what f_s_loop and f_e_loop put around a body, and how often the body runs. */
module CounterLoop {
  import opened Words
  import opened Isa

  function LoopStart(cnt: nat, count: Opnd, name: string): seq<Instr> {
    [SMov(S(cnt), count), Label(name)]
  }

  function LoopEnd(cnt: nat, name: string): seq<Instr> {
    [SAlu(SSub, cnt, S(cnt), Imm(1)), SCmpEq(S(cnt), Imm(0)), BranchIf(false, name)]
  }

  function Less(c: Word): Word {
    (c - 1) % TWO32
  }

  /** The wave before the conditional branch. */
  function Counted(cnt: nat, w: Wave): (r: Wave)
    ensures SReg(r.sgpr, cnt) == Less(SReg(w.sgpr, cnt)) && r.scc == (Less(SReg(w.sgpr, cnt)) == 0) && r.pc == w.pc + 2
  {
    var c := Less(SReg(w.sgpr, cnt));
    w.WithScalar(cnt, c).(scc := c == 0, pc := w.pc + 2)
  }

  lemma CountDoes(cnt: nat, name: string, w: Wave, sched: seq<Mem>)
    requires |sched| >= 2
    ensures Through(LoopEnd(cnt, name)[..2], w, sched, 2) == Counted(cnt, w)
  {
    hide Through, Exec, LowWord, HighWord;
    var c := Less(SReg(w.sgpr, cnt));
    DoDifference(cnt, S(cnt), Imm(1), w, sched[0]);
    DoCmpEq(S(cnt), Imm(0), w.WithScalar(cnt, c).(scc := 1 > SReg(w.sgpr, cnt), pc := w.pc + 1), sched[1]);
    Through2(LoopEnd(cnt, name)[..2], w, sched);
  }

  /** The end of the loop: one less, and back to the label unless that is zero. */
  lemma EndDoes(code: seq<Instr>, q: nat, cnt: nat, name: string, w: Wave, sched: seq<Mem>)
    requires At(code, q, LoopEnd(cnt, name)) && w.pc == q && |sched| >= 3
    ensures var w' := Run(code, w, sched, 3);
      && SReg(w'.sgpr, cnt) == Less(SReg(w.sgpr, cnt))
      && w'.pc == if Less(SReg(w.sgpr, cnt)) == 0 then q + 3 else Target(code, name)
  {
    hide Through, Target, Exec, Less, Run;
    var b := LoopEnd(cnt, name)[..2];
    assert At(code, q, b) && code[q + 2] == LoopEnd(cnt, name)[2];
    RunStraight(code, q, b, w, sched, 2);
    CountDoes(cnt, name, w, sched);
    RunStep(code, w, sched, 2);
  }

  /** Round t starts at the label with ws[t]; the body, whatever it is, takes the wave to the loop end at
      q with the counter as it was; then the loop end runs. */
  ghost predicate Rounds(code: seq<Instr>, p: nat, q: nat, cnt: nat, ws: seq<Wave>, bodies: seq<seq<Mem>>,
                         ends: seq<seq<Mem>>) {
    && |ws| == |bodies| + 1 == |ends| + 1
    && forall t :: 0 <= t < |bodies| ==> Round(code, p, q, cnt, ws[t], bodies[t], ends[t], ws[t + 1])
  }

  ghost predicate Round(code: seq<Instr>, p: nat, q: nat, cnt: nat, w: Wave, body: seq<Mem>, end: seq<Mem>, w': Wave) {
    var b := Run(code, w, body, |body|);
    && w.pc == p && b.pc == q && SReg(b.sgpr, cnt) == SReg(w.sgpr, cnt)
    && |end| >= 3 && w' == Run(code, b, end, 3)
  }

  lemma RoundDoes(code: seq<Instr>, p: nat, q: nat, cnt: nat, name: string, w: Wave, body: seq<Mem>, end: seq<Mem>,
                  w': Wave)
    requires At(code, q, LoopEnd(cnt, name)) && Target(code, name) == p && Round(code, p, q, cnt, w, body, end, w')
    ensures w.pc == p && SReg(w'.sgpr, cnt) == Less(SReg(w.sgpr, cnt))
    ensures w'.pc == if Less(SReg(w.sgpr, cnt)) == 0 then q + 3 else p
  {
    hide Step, Target, Less, At;
    EndDoes(code, q, cnt, name, Run(code, w, body, |body|), end);
  }

  /** How often the body runs when the counter starts at n. */
  function RoundCount(n: Word): nat {
    if n == 0 then TWO32 else n
  }

  lemma LessOf(n: Word, t: nat)
    requires t < RoundCount(n)
    ensures Less((n - t) % TWO32) == (n - (t + 1)) % TWO32
    ensures (n - (t + 1)) % TWO32 == 0 <==> t + 1 == RoundCount(n)
  {
    var m := RoundCount(n) - t;
    assert (n - t) % TWO32 == m % TWO32;
    assert (n - (t + 1)) % TWO32 == (m - 1) % TWO32;
  }

  /** The body runs exactly n times for n >= 1, and 2^32 times for n = 0: the wave is behind the loop
      after that many turns, and at the label after fewer. */
  lemma {:induction false} LoopCount(code: seq<Instr>, p: nat, q: nat, cnt: nat, name: string, n: Word,
                                     ws: seq<Wave>, bodies: seq<seq<Mem>>, ends: seq<seq<Mem>>)
    requires At(code, q, LoopEnd(cnt, name)) && Target(code, name) == p && p != q + 3
    requires Rounds(code, p, q, cnt, ws, bodies, ends) && ws[0].pc == p && SReg(ws[0].sgpr, cnt) == n
    ensures |bodies| <= RoundCount(n)
    ensures SReg(ws[|bodies|].sgpr, cnt) == (n - |bodies|) % TWO32
    ensures ws[|bodies|].pc == if |bodies| == RoundCount(n) then q + 3 else p
  {
    hide Round, Target, Less, At, RoundCount;
    assert RoundCount(n) >= 1 by { AtLeastOnce(n); }
    if bodies != [] {
      var t := |bodies| - 1;
      LoopCount(code, p, q, cnt, name, n, ws[..t + 1], bodies[..t], ends[..t]);
      RoundDoes(code, p, q, cnt, name, ws[t], bodies[t], ends[t], ws[t + 1]);
      LessOf(n, t);
    }
  }

  lemma AtLeastOnce(n: Word)
    ensures RoundCount(n) >= 1
  {
  }

  /** The loop start sets the counter. */
  lemma LoopEnters(code: seq<Instr>, p: nat, cnt: nat, count: Opnd, name: string, w: Wave, sched: seq<Mem>)
    requires At(code, p, LoopStart(cnt, count, name)) && w.pc == p && |sched| >= 1
    ensures var w' := Run(code, w, sched, 1); w'.pc == p + 1 && SReg(w'.sgpr, cnt) == w.Value(count, 0)
  {
    hide Exec, Through, Run, Wave.Value;
    var b := LoopStart(cnt, count, name)[..1];
    assert At(code, p, b);
    RunStraight(code, p, b, w, sched, 1);
    Through1(b, w, sched);
    DoMov(cnt, count, w, sched[0]);
  }

  // ---------------------------------------------------------------------------------------------
  // The loop in a program
  // ---------------------------------------------------------------------------------------------

  /** The code of f_s_loop, a body, and f_e_loop, from line q on. */
  function LoopCode(cnt: nat, count: Opnd, name: string, body: seq<Instr>): seq<Instr> {
    LoopStart(cnt, count, name) + body + LoopEnd(cnt, name)
  }

  lemma {:induction false} LoopParts(code: seq<Instr>, q: nat, cnt: nat, count: Opnd, name: string, body: seq<Instr>)
    requires At(code, q, LoopCode(cnt, count, name, body)) && forall i :: 0 <= i < q ==> code[i] != Label(name)
    ensures At(code, q, LoopStart(cnt, count, name)) && At(code, q + 1, [Label(name)] + body)
    ensures At(code, q + 2 + |body|, LoopEnd(cnt, name)) && Target(code, name) == q + 1
  {
    var all := LoopCode(cnt, count, name, body);
    var n := |body|;
    assert |all| == n + 5;
    PartAt(code, q, all, 0, 2);
    PartAt(code, q, all, 1, n + 2);
    PartAt(code, q, all, n + 2, n + 5);
    assert all[0..2] == LoopStart(cnt, count, name) && all[1..n + 2] == [Label(name)] + body;
    assert all[n + 2..n + 5] == LoopEnd(cnt, name);
    assert code[q] == all[0] && code[q + 1] == all[1];
    LabelFound(code, name, q + 1);
  }

  /** A wave that enters the loop with count n, whatever the body does that leaves the counter alone and
      comes to the loop end: the body runs exactly RoundCount(n) times, and then the wave is behind the
      loop. */
  lemma {:induction false} LoopRuns(code: seq<Instr>, q: nat, cnt: nat, count: Opnd, name: string, body: seq<Instr>,
                                    w: Wave, m: Mem, ws: seq<Wave>, bodies: seq<seq<Mem>>, ends: seq<seq<Mem>>)
    requires At(code, q, LoopCode(cnt, count, name, body)) && forall i :: 0 <= i < q ==> code[i] != Label(name)
    requires w.pc == q && ws != [] && ws[0] == Run(code, w, [m], 1)
    requires Rounds(code, q + 1, q + 2 + |body|, cnt, ws, bodies, ends)
    ensures |bodies| <= RoundCount(w.Value(count, 0))
    ensures ws[|bodies|].pc == if |bodies| == RoundCount(w.Value(count, 0)) then q + 5 + |body| else q + 1
  {
    hide Rounds, LoopCode, LoopStart, LoopEnd, Run, At, RoundCount, Wave.Value;
    LoopParts(code, q, cnt, count, name, body);
    LoopEnters(code, q, cnt, count, name, w, [m]);
    LoopCount(code, q + 1, q + 2 + |body|, cnt, name, w.Value(count, 0), ws, bodies, ends);
  }

  /** Code without branches that never writes the counter. */
  predicate Spares(body: seq<Instr>, cnt: nat) {
    Straight(body) && forall i :: 0 <= i < |body| ==> cnt !in ScalarsWritten(body[i])
  }

  lemma {:induction false} CounterKept(code: seq<Instr>, p: nat, body: seq<Instr>, cnt: nat, w: Wave, sched: seq<Mem>,
                                       n: nat)
    requires At(code, p, body) && Spares(body, cnt) && w.pc == p && n <= |body| && n <= |sched|
    ensures Run(code, w, sched, n).pc == p + n && SReg(Run(code, w, sched, n).sgpr, cnt) == SReg(w.sgpr, cnt)
  {
    hide Step, ScalarsWritten, SReg, Through;
    RunStraight(code, p, body, w, sched, n);
    if n > 0 {
      CounterKept(code, p, body, cnt, w, sched, n - 1);
      var b := Run(code, w, sched, n - 1);
      assert code[b.pc] == body[n - 1];
      StepWrites(code, b, sched[n - 1]);
    }
  }

  /** How many steps k turns take, and how many there are before them: label, body and the three
      instructions of the end. */
  function StepsOf(length: nat, k: nat): nat {
    if k == 0 then 1 else StepsOf(length, k - 1) + length + 4
  }

  /** With such a body the machine goes round by itself: after the steps of k turns it is at the label
      again, and after those of turn RoundCount(n) behind the loop. */
  lemma {:induction false} StraightLoop(code: seq<Instr>, q: nat, cnt: nat, count: Opnd, name: string,
                                        body: seq<Instr>, w: Wave, sched: seq<Mem>, k: nat)
    requires At(code, q, LoopCode(cnt, count, name, body)) && forall i :: 0 <= i < q ==> code[i] != Label(name)
    requires Spares(body, cnt) && w.pc == q
    requires k <= RoundCount(w.Value(count, 0)) && StepsOf(|body|, k) <= |sched|
    ensures var w' := Run(code, w, sched, StepsOf(|body|, k));
      && SReg(w'.sgpr, cnt) == (w.Value(count, 0) - k) % TWO32
      && w'.pc == if k == RoundCount(w.Value(count, 0)) then q + 5 + |body| else q + 1
  {
    hide LoopCode, LoopStart, LoopEnd, Run, At, RoundCount, Wave.Value, Target, Less, Spares;
    var n := w.Value(count, 0);
    LoopParts(code, q, cnt, count, name, body);
    AtLeastOnce(n);
    if k == 0 {
      LoopEnters(code, q, cnt, count, name, w, sched);
    } else {
      StraightLoop(code, q, cnt, count, name, body, w, sched, k - 1);
      var a := StepsOf(|body|, k - 1);
      var w1 := Run(code, w, sched, a);
      OneTurn(code, q, cnt, name, body, w1, sched[a..]);
      RunOn(code, w, sched, a, |body| + 4);
      LessOf(n, k - 1);
    }
  }

  lemma {:induction false} OneTurn(code: seq<Instr>, q: nat, cnt: nat, name: string, body: seq<Instr>, w: Wave,
                                   sched: seq<Mem>)
    requires At(code, q + 1, [Label(name)] + body) && At(code, q + 2 + |body|, LoopEnd(cnt, name))
    requires Spares(body, cnt) && w.pc == q + 1 && |sched| >= |body| + 4
    ensures var w' := Run(code, w, sched, |body| + 4);
      && SReg(w'.sgpr, cnt) == Less(SReg(w.sgpr, cnt))
      && w'.pc == if Less(SReg(w.sgpr, cnt)) == 0 then q + 5 + |body| else Target(code, name)
  {
    hide Run, At, Target, Less, LoopEnd, Spares, SReg;
    var n := |body|;
    var labelled := [Label(name)] + body;
    assert Spares(labelled, cnt) by { LabelSpares(name, body, cnt); }
    CounterKept(code, q + 1, labelled, cnt, w, sched, n + 1);
    EndDoes(code, q + 2 + n, cnt, name, Run(code, w, sched, n + 1), sched[n + 1..]);
    RunOn(code, w, sched, n + 1, 3);
  }

  lemma LabelSpares(name: string, body: seq<Instr>, cnt: nat)
    requires Spares(body, cnt)
    ensures Spares([Label(name)] + body, cnt)
  {
    var b := [Label(name)] + body;
    forall i | 0 <= i < |b| ensures !b[i].Branch? && !b[i].BranchIf? && cnt !in ScalarsWritten(b[i]) {
      assert i > 0 ==> b[i] == body[i - 1];
    }
  }
}

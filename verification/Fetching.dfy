/** Worker waves and the fetch wave together: what the indices it hands over have to do with what was
    sent, and when it leaves its loop. Only the words it reads have to be those of the protocol: waves
    may store anything anywhere else. */
module Fetching {
  import opened Words
  import opened Isa
  import opened Prefetch
  import opened PendRun
  import opened Signals
  import PendCode

  /** The lower half of a wave polls. */
  const POLLED := 32

  predicate LowOnly(active: Mask) {
    forall l :: POLLED <= l < 64 ==> !active[l]
  }

  /** The state after the first n steps of a run. */
  function StateAt(y: Layout, s: Sys, es: seq<Event>, n: nat): Sys
    requires Legal(y, s, es) && n <= |es|
  {
    Prefix(y, s, es, n);
    After(y, s, es[..n])
  }

  lemma {:induction false} Prefix(y: Layout, s: Sys, es: seq<Event>, n: nat)
    requires Legal(y, s, es) && n <= |es|
    ensures Legal(y, s, es[..n]) && Arrivals(es[..n]) <= Arrivals(es)
    decreases n
  {
    hide Apply, Enabled;
    if n > 0 {
      Prefix(y, Apply(y, s, es[0]), es[1..], n - 1);
      assert es[..n][1..] == es[1..][..n - 1];
    }
  }

  /** The slot load reads lane by lane: active lane k finds what its slot held after at[k] steps of the
      run, no more than n. The moments of two lanes may differ, with steps of the workers in between. */
  ghost predicate FoundDuring(y: Layout, s: Sys, active: Mask, es: seq<Event>, n: nat, at: seq<nat>, m: Mem)
    requires Legal(y, s, es) && n <= |es|
  {
    |at| == POLLED && forall k :: 0 <= k < POLLED && active[k] ==>
      at[k] <= n && ReadMem(m, SlotAt(y, k)) == ReadMem(StateAt(y, s, es, at[k]).mem, SlotAt(y, k))
  }

  /** No polled slot starts with an index. */
  ghost predicate Clean(y: Layout, active: Mask, m: Mem) {
    forall k :: 0 <= k < POLLED && active[k] ==> Index(ReadMem(m, SlotAt(y, k))) == 0
  }

  lemma PollReads(y: Layout, active: Mask, m: Mem, l: nat)
    requires l < 64
    ensures PollAt(y.base, y.signalOffset, active, m).signal[l] == ReadMem(m, SlotAt(y, l))
  {
  }

  lemma {:induction false} RunStarts(y: Layout, s: Sys, es: seq<Event>)
    requires Apart(y) && Initial(y, s) && Legal(y, s, es) && Arrivals(es) < SLOTS
    ensures Counted(y, After(y, s, es)) && Sourced(y, s.mem, After(y, s, es))
    ensures Count(y, After(y, s, es)) == 0 <==> Live(After(y, s, es)) == {}
  {
    hide After, Count, Live, SlotAt;
    InitialCounted(y, s);
    CounterCountsLive(y, s, es);
    RunSourced(y, s.mem, s, es);
  }

  /** What was sent stays sent. */
  lemma {:induction false} StaysSent(y: Layout, s: Sys, es: seq<Event>)
    requires Legal(y, s, es)
    ensures s.sent <= After(y, s, es).sent
    decreases |es|
  {
    hide CounterAt, SlotAt, Count;
    if es != [] { StaysSent(y, Apply(y, s, es[0]), es[1..]); }
  }

  lemma {:induction false} SentByThen(y: Layout, s: Sys, es: seq<Event>, j: nat, n: nat)
    requires Legal(y, s, es) && j <= n <= |es|
    ensures StateAt(y, s, es, j).sent <= StateAt(y, s, es, n).sent
    decreases j
  {
    hide Apply, Enabled;
    Prefix(y, s, es, n);
    if j == 0 {
      StaysSent(y, s, es[..n]);
    } else {
      assert es[..n][1..] == es[1..][..n - 1] && es[..j][1..] == es[1..][..j - 1];
      SentByThen(y, Apply(y, s, es[0]), es[1..], j - 1, n - 1);
    }
  }

  /** An index picked from slots that were read at moments of a run had been sent by then, when the polled
      slots started without one. */
  lemma {:induction false} DeliveredWasSent(y: Layout, s: Sys, es: seq<Event>, n: nat, active: Mask, at: seq<nat>,
                                            m: Mem, history: seq<Word>, x: Word)
    requires Apart(y) && Initial(y, s) && Legal(y, s, es) && Arrivals(es) < SLOTS && n <= |es|
    requires LowOnly(active) && Clean(y, active, s.mem) && FoundDuring(y, s, active, es, n, at, m)
    requires Reference(history, PollAt(y.base, y.signalOffset, active, m), Deliver(x))
    ensures x in StateAt(y, s, es, n).sent
  {
    hide SlotAt, After, PollAt, Counted, Count, Live, Arrivals, Legal, Initial;
    var p := PollAt(y.base, y.signalOffset, active, m);
    assert p.active == active by { PollMask(y, active, m); }
    var l: nat :| l < 64 && FirstWanted(history, p, l) && p.signal[l] == x;
    PollReads(y, active, m, l);
    Prefix(y, s, es, at[l]);
    RunStarts(y, s, es[..at[l]]);
    SentByThen(y, s, es, at[l], n);
  }

  lemma PollMask(y: Layout, active: Mask, m: Mem)
    ensures PollAt(y.base, y.signalOffset, active, m).active == active
  {
  }

  // ---------------------------------------------------------------------------------------------
  // Exactly when is every delivery something that was sent?
  // ---------------------------------------------------------------------------------------------

  /** When a poll reads: the counter first, then the slots, lane k after at[k] steps of the workers; by
      step end it has read them all. */
  datatype Reads = Reads(counter: nat, at: seq<nat>, end: nat)

  /** A poll of the run: a wave is registered when it reads the counter. */
  ghost predicate PolledAt(y: Layout, s: Sys, active: Mask, es: seq<Event>, d: Reads, m: Mem)
    requires Legal(y, s, es)
  {
    && d.counter <= d.end <= |es| && Count(y, StateAt(y, s, es, d.counter)) != 0
    && FoundDuring(y, s, active, es, d.end, d.at, m)
    && forall k :: 0 <= k < POLLED && active[k] ==> d.counter <= d.at[k]
  }

  /** Polls one after the other during a run of the workers: poll t reads at the moments when[t] and finds
      mems[t]. */
  ghost predicate PolledRun(y: Layout, s: Sys, active: Mask, es: seq<Event>, when: seq<Reads>, mems: seq<Mem>) {
    && Legal(y, s, es) && Arrivals(es) < SLOTS && |when| == |mems|
    && (forall i, j :: 0 <= i < j < |when| ==> when[i].end <= when[j].counter)
    && forall t :: 0 <= t < |when| ==> PolledAt(y, s, active, es, when[t], mems[t])
  }

  function PollsOf(y: Layout, active: Mask, mems: seq<Mem>): (ps: seq<Poll>)
    ensures |ps| == |mems| && forall t :: 0 <= t < |ps| ==> ps[t] == PollAt(y.base, y.signalOffset, active, mems[t])
  {
    seq(|mems|, t requires 0 <= t < |mems| => PollAt(y.base, y.signalOffset, active, mems[t]))
  }

  /** What the filter then delivers had been sent. */
  ghost predicate AllSent(y: Layout, s: Sys, active: Mask, es: seq<Event>, when: seq<Reads>, mems: seq<Mem>)
    requires PolledRun(y, s, active, es, when, mems)
  {
    var os := Polling(START, PollsOf(y, active, mems)).1;
    forall t :: 0 <= t < |os| && os[t].Deliver? ==> os[t].signal in StateAt(y, s, es, when[t].end).sent
  }

  ghost predicate AlwaysSent(y: Layout, s: Sys, active: Mask) {
    forall es, when, mems :: PolledRun(y, s, active, es, when, mems) ==> AllSent(y, s, active, es, when, mems)
  }

  lemma {:induction false} CleanIsEnough(y: Layout, s: Sys, active: Mask, es: seq<Event>, when: seq<Reads>,
                                         mems: seq<Mem>)
    requires Apart(y) && Initial(y, s) && LowOnly(active) && Clean(y, active, s.mem)
    requires PolledRun(y, s, active, es, when, mems)
    ensures AllSent(y, s, active, es, when, mems)
  {
    hide Polling, Reference, PollAt, StateAt, Legal, Clean, FoundDuring, LowOnly, Initial, Deliveries, Arrivals, Count;
    var polls := PollsOf(y, active, mems);
    var os := Polling(START, polls).1;
    assert |START.window| == DEPTH by { StartLength(); }
    forall t | 0 <= t < |os| && os[t].Deliver? ensures os[t].signal in StateAt(y, s, es, when[t].end).sent {
      OutcomeAt(polls, t);
      DeliveredWasSent(y, s, es, when[t].end, active, when[t].at, mems[t], Deliveries(os[..t]), os[t].signal);
    }
  }

  /** A poll that reads everything after n steps. */
  function AtOnce(n: nat): Reads {
    Reads(n, seq(POLLED, k => n), n)
  }

  /** A polled slot that starts with an index: the first poll after any registration delivers something
      nobody has sent. */
  lemma {:induction false} UnclearedIsDelivered(y: Layout, s: Sys, active: Mask, k: nat, id: nat)
    requires Apart(y) && Initial(y, s) && k < POLLED && active[k] && Index(ReadMem(s.mem, SlotAt(y, k))) != 0
    ensures var es := [Register(id)];
      var mems := [After(y, s, es).mem];
      PolledRun(y, s, active, es, [AtOnce(1)], mems) && !AllSent(y, s, active, es, [AtOnce(1)], mems)
  {
    hide Polling, PollAt, SlotAt, CounterAt;
    var es := [Register(id)];
    var s' := Apply(y, s, es[0]);
    OneRegistered(y, s, id);
    assert es[..1] == es;
    var polls := PollsOf(y, active, [s'.mem]);
    assert |START.window| == DEPTH by { StartLength(); }
    OutcomeAt(polls, 0);
    var os := Polling(START, polls).1;
    assert os[..0] == [];
    WordsApart(y, k, k);
    PollMask(y, active, s'.mem);
    PollReads(y, active, s'.mem, k);
    assert Wanted([], polls[0].signal[k]);
    assert os[0].Deliver?;
  }

  lemma OneRegistered(y: Layout, s: Sys, id: nat)
    requires Initial(y, s)
    ensures var es := [Register(id)];
      && Legal(y, s, es) && Arrivals(es) == 1 && After(y, s, es) == Apply(y, s, es[0])
      && Count(y, After(y, s, es)) == 1 && After(y, s, es).sent == {}
  {
    var es := [Register(id)];
    assert Legal(y, Apply(y, s, es[0]), es[1..]) && After(y, Apply(y, s, es[0]), es[1..]) == Apply(y, s, es[0]);
    assert Arrivals(es[1..]) == 0;
  }

  /** In every run every delivery had been sent exactly when no polled slot starts with an index. The
      registration clears a wave's own slot only, so the rest has to come from whoever allocates them. */
  lemma {:induction false} AlwaysSentIffClean(y: Layout, s: Sys, active: Mask)
    requires Apart(y) && Initial(y, s) && LowOnly(active)
    ensures AlwaysSent(y, s, active) <==> Clean(y, active, s.mem)
  {
    hide PolledRun, AllSent, SlotAt, Initial, After, LowOnly;
    if Clean(y, active, s.mem) {
      forall es, when, mems | PolledRun(y, s, active, es, when, mems) ensures AllSent(y, s, active, es, when, mems) {
        CleanIsEnough(y, s, active, es, when, mems);
      }
    } else {
      var k :| 0 <= k < POLLED && active[k] && Index(ReadMem(s.mem, SlotAt(y, k))) != 0;
      UnclearedIsDelivered(y, s, active, k, 0);
    }
  }

  // ---------------------------------------------------------------------------------------------
  // The emitted loop
  // ---------------------------------------------------------------------------------------------

  lemma LowHalfLow(m: Mask)
    ensures LowOnly(LowHalf(m))
  {
  }

  /** Worker waves come, send and retire in any interleaving; the fetch wave runs the emitted loop, lane k
      of whose slot load in turn t reads after at[t][k] of their steps. Every index it hands over had been
      sent by the last of these moments. */
  lemma {:induction false} EveryFetchWasSent(y: Layout, s: Sys, es: seq<Event>, when: seq<nat>, at: seq<seq<nat>>,
                                             code: seq<Instr>, q: nat, r: PendCode.PendRegs, a: PendCode.PendArgs,
                                             w: Wave, setup: seq<Mem>,
                                             ws: seq<Wave>, scheds: seq<seq<Mem>>, os: seq<Outcome>)
    requires Apart(y) && Initial(y, s) && Legal(y, s, es) && Arrivals(es) < SLOTS
    requires Clean(y, LowHalf(w.exec), s.mem)
    requires PendCode.Separate(r, a) && Entry(w, a) && w.pc == q && |setup| >= 8
    requires At(code, q, PendCode.PendSetup(r, a)) && At(code, q + 8, PendCode.PendLoop(r, a))
    requires Target(code, a.begin) == q + 8 && w.Scalar64(a.slot) == y.base && a.signalOffset == y.signalOffset
    requires Turns(code, q + 8, r, a, LowHalf(w.exec), ws, scheds, os) && ws[0] == Run(code, w, setup, 8)
    requires |when| == |at| == |os| && forall t :: 0 <= t < |os| ==> when[t] <= |es|
    requires forall t :: 0 <= t < |os| ==> FoundDuring(y, s, LowHalf(w.exec), es, when[t], at[t], scheds[t][7])
    ensures forall t :: 0 <= t < |os| && os[t].Deliver? ==> os[t].signal in StateAt(y, s, es, when[t]).sent
  {
    hide At, Target, Run, PendCode.PendSetup, PendCode.PendLoop, TurnStep, PollAt, Polling, Reference, Legal, StateAt,
         FoundDuring, Clean, Arrivals, LowOnly,
         LowHalf, PendCode.Separate, Entry, Wave.Scalar64, Initial, Spaced, Deliveries;
    PrefetchLoop(code, q, r, a, w, setup, ws, scheds, os);
    LowHalfLow(w.exec);
    forall t | 0 <= t < |os| && os[t].Deliver? ensures os[t].signal in StateAt(y, s, es, when[t]).sent {
      DeliveredWasSent(y, s, es, when[t], LowHalf(w.exec), at[t], scheds[t][7], Deliveries(os[..t]), os[t].signal);
    }
  }

  /** The fetch wave tests the counter it has just read: it leaves the loop exactly when, at the moment
      of that read, no wave is registered. */
  lemma {:induction false} LeavesWhenNobodyIsLive(y: Layout, s: Sys, es: seq<Event>, code: seq<Instr>, p: nat,
                                                  r: PendCode.PendRegs, a: PendCode.PendArgs, active: Mask, f: Fetch,
                                                  w: Wave, sched: seq<Mem>)
    requires Apart(y) && Initial(y, s) && Legal(y, s, es) && Arrivals(es) < SLOTS
    requires PendCode.Separate(r, a) && At(code, p, PendCode.PendLoop(r, a)) && AtHead(w, p, r, a, y.base, active, f)
    requires a.waveOffset == y.waveOffset && |sched| >= 27 && Target(code, a.begin) == p
    requires Target(code, a.end) != p + 7
    requires ReadMem(sched[3], CounterAt(y)) == Count(y, After(y, s, es))
    ensures Run(code, w, sched, 7).pc == Target(code, a.end) <==> Live(After(y, s, es)) == {}
  {
    hide Run, Target, PendCode.PendLoop, PendCode.Carries, After, Live, Initial, Counted, Sourced;
    RunStarts(y, s, es);
    PendCode.CountStage(code, p, r, a, w, active, f, sched);
  }
}

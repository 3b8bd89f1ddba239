/** Any number of worker waves, each stepping through its own emitted code on one memory, refine the
    shared-memory system: whatever the interleaving, and whatever other waves store elsewhere. */
module Machines {
  import opened Words
  import opened Isa
  import opened Prefetch
  import opened Registers
  import opened PendRun
  import opened Sets
  import opened Signals
  import opened Fetching
  import opened Worker
  import PendCode

  /** The program of the workers: where the emitted blocks stand in it, and the signal register of each send. */
  datatype Script = Script(code: seq<Instr>, start: nat, r: InitRegs, sends: map<nat, nat>, stop: nat, tmp: nat)

  ghost predicate Laid(c: Script, y: Layout) {
    && Apart(y) && InitApart(c.r) && c.r.waveOffset == y.waveOffset && c.r.signalOffset == y.signalOffset
    && c.tmp !in {c.r.slot, c.r.slot + 1}
    && At(c.code, c.start, Registration(c.r))
    && (forall p :: p in c.sends ==> At(c.code, p, SendCode(c.r.addr, c.sends[p], c.r.signalOffset)))
    && At(c.code, c.stop, DeinitCode(c.tmp, c.r.slot, c.r.waveOffset))
  }

  /** How far a wave has come. Inside a block: the wave as it entered it and the memories its steps found.
      home is the address the registration left in the address register. */
  datatype Stage =
    | Before
    | Registering(entry: Wave, found: seq<Mem>)
    | Working(home: nat)
    | Retiring(entry: Wave, found: seq<Mem>)
    | Gone

  datatype Agent = Agent(w: Wave, stage: Stage)

  datatype Machine = Machine(mem: Mem, agents: map<nat, Agent>)

  /** Who moves: a worker, or anybody else. */
  datatype Mover = Agents(id: nat) | Other

  /** The counter and the polled slots hold the same words. */
  ghost predicate SameWords(y: Layout, m: Mem, n: Mem) {
    && ReadMem(m, CounterAt(y)) == ReadMem(n, CounterAt(y))
    && forall k :: 0 <= k < POLLED ==> ReadMem(m, SlotAt(y, k)) == ReadMem(n, SlotAt(y, k))
  }

  ghost predicate AllAt(w: Wave, addr: nat, home: nat) {
    forall l :: 0 <= l < 64 && w.exec[l] ==> w.Lane64(addr, l) == home
  }

  /** One instruction of a worker. What its own code owes: outside the emitted blocks it stores to none of
      the protocol's words; it has the slot base in its register when it enters a block that needs it; at
      a send some lane is active and the address is still the one from the registration. */
  ghost predicate AgentStep(c: Script, y: Layout, a: Agent, m: Mem, b: Agent, n: Mem) {
    && Step(c.code, a.w, m) == (b.w, n)
    && match a.stage
       case Before =>
         if a.w.pc == c.start then
           a.w.Scalar64(c.r.slot) == y.base && SomeLane(a.w.exec, 0) && b.stage == Registering(a.w, [m])
         else SameWords(y, m, n) && b.stage == Before
       case Registering(e, f) =>
         b.stage == if |f| + 1 < 10 then Registering(e, f + [m]) else Working(b.w.Lane64(c.r.addr, FirstLane(b.w.exec)))
       case Working(home) =>
         if a.w.pc == c.stop then a.w.Scalar64(c.r.slot) == y.base && b.stage == Retiring(a.w, [m])
         else if a.w.pc in c.sends then SomeLane(a.w.exec, 0) && AllAt(a.w, c.r.addr, home) && b.stage == a.stage
         else SameWords(y, m, n) && b.stage == a.stage
       case Retiring(e, f) => b.stage == if |f| + 1 < 3 then Retiring(e, f + [m]) else Gone
       case Gone => SameWords(y, m, n) && b.stage == Gone
  }

  /** One step of the machine. Anybody else, the fetch wave included, leaves the protocol's words alone. */
  ghost predicate MachineStep(c: Script, y: Layout, a: Machine, x: Mover, b: Machine) {
    match x
    case Agents(id) =>
      && id in a.agents && id in b.agents && b.agents == a.agents[id := b.agents[id]]
      && AgentStep(c, y, a.agents[id], a.mem, b.agents[id], b.mem)
    case Other => b.agents == a.agents && SameWords(y, a.mem, b.mem)
  }

  ghost predicate MachineRun(c: Script, y: Layout, ms: seq<Machine>, xs: seq<Mover>) {
    && |ms| == |xs| + 1
    && forall t :: 0 <= t < |xs| ==> MachineStep(c, y, ms[t], xs[t], ms[t + 1])
  }

  /** The counter has been reset and nobody has begun. */
  ghost predicate AtStart(y: Layout, a: Machine) {
    ReadMem(a.mem, CounterAt(y)) == 0 && |a.agents| < SLOTS &&
    forall id :: id in a.agents ==> a.agents[id].stage.Before?
  }

  // ---------------------------------------------------------------------------------------------
  // The relation
  // ---------------------------------------------------------------------------------------------

  /** The number of the slot the atomic add returned. */
  function Given(y: Layout, f: seq<Mem>): Word
    requires |f| >= 2
  {
    ReadMem(f[1], CounterAt(y))
  }

  ghost predicate Entered(c: Script, y: Layout, e: Wave, p: nat, f: seq<Mem>, w: Wave) {
    e.pc == p && e.Scalar64(c.r.slot) == y.base && w == Run(c.code, e, f, |f|)
  }

  /** Where a worker is in its code says where its wave is in the system. */
  ghost predicate Phased(c: Script, y: Layout, g: Agent, id: nat, s: Sys) {
    match g.stage
    case Before => id !in s.waves
    case Registering(e, f) =>
      && 1 <= |f| < 10 && Entered(c, y, e, c.start, f, g.w) && SomeLane(e.exec, 0)
      && (if |f| < 2 then id !in s.waves
          else id in s.waves && s.waves[id] == if |f| < 9 then Waiting(Given(y, f)) else Sending(Given(y, f), 0))
    case Working(home) =>
      id in s.waves && s.waves[id].Sending? && home == (y.base + 4 * s.waves[id].slot) % TWO64
    case Retiring(e, f) =>
      && 1 <= |f| < 3 && Entered(c, y, e, c.stop, f, g.w)
      && id in s.waves && if |f| < 2 then s.waves[id].Sending? else s.waves[id].Retired?
    case Gone => id in s.waves && s.waves[id].Retired?
  }

  ghost predicate Refines(c: Script, y: Layout, a: Machine, s: Sys) {
    && SameWords(y, s.mem, a.mem) && Counted(y, s) && s.waves.Keys <= a.agents.Keys
    && forall id :: id in a.agents ==> Phased(c, y, a.agents[id], id, s)
  }

  // ---------------------------------------------------------------------------------------------
  // Events on memories that agree in the protocol's words
  // ---------------------------------------------------------------------------------------------

  /** The system with another memory that holds the same words. */
  function On(s: Sys, m: Mem): Sys {
    s.(mem := m)
  }

  lemma {:induction false} SameEvent(y: Layout, s: Sys, m: Mem, e: Event)
    requires Apart(y) && SameWords(y, s.mem, m) && Enabled(s, e)
    ensures Enabled(On(s, m), e) && Apply(y, On(s, m), e).waves == Apply(y, s, e).waves
    ensures SameWords(y, Apply(y, s, e).mem, Apply(y, On(s, m), e).mem)
  {
    hide CounterAt, SlotAt;
    forall k | 0 <= k < POLLED ensures SlotAt(y, k) != CounterAt(y) { WordsApart(y, k, k); }
  }

  lemma {:induction false} RunPrefix(code: seq<Instr>, w: Wave, f: seq<Mem>, g: seq<Mem>, n: nat)
    requires n <= |f| && n <= |g| && f[..n] == g[..n]
    ensures Run(code, w, f, n) == Run(code, w, g, n)
  {
    if n > 0 {
      hide Step;
      assert f[..n - 1] == f[..n][..n - 1] && g[..n - 1] == g[..n][..n - 1];
      assert f[n - 1] == f[..n][n - 1] && g[n - 1] == g[..n][n - 1];
      RunPrefix(code, w, f, g, n - 1);
    }
  }

  /** A schedule that goes on with what was found last. */
  function Padded(f: seq<Mem>, m: Mem, n: nat): (g: seq<Mem>)
    requires |f| < n
    ensures |g| == n && g[..|f|] == f && g[..|f| + 1] == f + [m] && forall i :: |f| <= i < n ==> g[i] == m
  {
    f + seq(n - |f|, _ => m)
  }

  lemma {:induction false} NextOf(code: seq<Instr>, e: Wave, f: seq<Mem>, m: Mem, n: nat)
    requires |f| < n
    ensures Run(code, e, Padded(f, m, n), |f|) == Run(code, e, f, |f|)
    ensures Run(code, e, f + [m], |f| + 1) == Step(code, Run(code, e, f, |f|), m).0
    ensures Run(code, e, Padded(f, m, n), |f| + 1) == Run(code, e, f + [m], |f| + 1)
  {
    hide Step;
    var g := Padded(f, m, n);
    RunPrefix(code, e, g, f, |f|);
    assert (f + [m])[..|f|] == f;
    RunPrefix(code, e, f + [m], f, |f|);
    assert (f + [m])[..|f| + 1] == f + [m];
    RunPrefix(code, e, g, f + [m], |f| + 1);
  }

  // ---------------------------------------------------------------------------------------------
  // One instruction of a block
  // ---------------------------------------------------------------------------------------------

  /** What the instruction after the first |f| of the registration does to memory. */
  function RegistrationStores(y: Layout, f: seq<Mem>, m: Mem): Mem {
    if |f| == 1 then m[CounterAt(y) := ToWord(ReadMem(m, CounterAt(y)) + 1)]
    else if |f| == 8 then m[SlotAt(y, Given(y, f)) := 0]
    else m
  }

  lemma {:induction false} RegistrationStep(c: Script, y: Layout, e: Wave, f: seq<Mem>, m: Mem, w: Wave)
    requires Laid(c, y) && |f| < 10 && Entered(c, y, e, c.start, f, w) && SomeLane(e.exec, 0)
    requires Given(y, if |f| >= 2 then f else [m, m]) < SLOTS && (|f| == 1 ==> ReadMem(m, CounterAt(y)) < SLOTS)
    ensures var (w', n) := Step(c.code, w, m);
      && n == RegistrationStores(y, f, m) && Entered(c, y, e, c.start, f + [m], w')
      && (|f| == 9 ==> OnSlot(w', c.r.addr, y, Given(y, f)) && SomeLane(w'.exec, 0))
  {
    hide Step, Run, At, Registration, SendCode, DeinitCode, SomeLane, OnSlot, SlotAt, CounterAt, Wave.Scalar64;
    var g := Padded(f, m, 10);
    NextOf(c.code, e, f, m, 10);
    var s1 := Sys(g[1], map[], {});
    var s2 := Sys(g[8], map[0 := Waiting(Count(y, s1))], {});
    WorkerRegisters(y, s1, s2, 0, c.code, c.start, c.r, e, g);
    assert |f| >= 2 ==> g[1] == f[1];
    assert f + [m] == g[..|f| + 1];
  }

  lemma {:induction false} RetirementStep(c: Script, y: Layout, e: Wave, f: seq<Mem>, m: Mem, w: Wave)
    requires Laid(c, y) && |f| < 3 && Entered(c, y, e, c.stop, f, w)
    ensures var (w', n) := Step(c.code, w, m);
      && n == (if |f| == 1 then m[CounterAt(y) := ToWord(ReadMem(m, CounterAt(y)) - 1)] else m)
      && Entered(c, y, e, c.stop, f + [m], w')
  {
    hide Step, Run, At, Registration, SendCode, DeinitCode, SlotAt, CounterAt, Wave.Scalar64;
    var g := Padded(f, m, 3);
    NextOf(c.code, e, f, m, 3);
    var s := Sys(g[1], map[0 := Sending(0, 0)], {});
    RetireStep(y, s, 0, c.code, c.stop, c.tmp, c.r.slot, e, g);
    RunStep(c.code, e, g, 0);
    assert f + [m] == g[..|f| + 1];
  }

  /** A registering wave: its second instruction is Register, its ninth Clear. */
  lemma {:induction false} RegisteringRefines(c: Script, y: Layout, a: Agent, m: Mem, b: Agent, n: Mem, id: nat, s: Sys,
                                              e: Wave, f: seq<Mem>)
    returns (o: Option<Event>)
    requires Laid(c, y) && Counted(y, s) && SameWords(y, s.mem, m)
    requires Step(c.code, a.w, m) == (b.w, n) && |f| < 10 && Entered(c, y, e, c.start, f, a.w) && SomeLane(e.exec, 0)
    requires if |f| < 2 then id !in s.waves
      else id in s.waves && s.waves[id] == if |f| < 9 then Waiting(Given(y, f)) else Sending(Given(y, f), 0)
    requires b.stage ==
      if |f| + 1 < 10 then Registering(e, f + [m]) else Working(b.w.Lane64(c.r.addr, FirstLane(b.w.exec)))
    ensures Follows(c, y, b, n, id, s, o) && (o.Some? ==> !o.value.Send?)
  {
    hide Step, Run, At, Registration, SendCode, DeinitCode, SomeLane, OnSlot, SlotAt, CounterAt, Wave.Scalar64,
      Wave.Lane64, Counted,
         SameWords;
    assert Count(y, s) < SLOTS && ReadMem(m, CounterAt(y)) == Count(y, s) by { CountBound(y, s, m); }
    if |f| >= 2 { SlotBound(y, s, id); }
    RegistrationStep(c, y, e, f, m, a.w);
    o := None;
    if |f| == 1 {
      o := Some(Register(id));
      SameEvent(y, s, m, Register(id));
    } else if |f| == 8 {
      o := Some(Clear(id));
      SameEvent(y, s, m, Clear(id));
    } else if |f| == 9 {
      HomeIs(y, b.w, c.r.addr, Given(y, f));
    }
  }

  lemma CountBound(y: Layout, s: Sys, m: Mem)
    requires Counted(y, s) && SameWords(y, s.mem, m)
    ensures Count(y, s) < SLOTS && ReadMem(m, CounterAt(y)) == Count(y, s)
  {
    hide CounterAt, SlotAt;
    LiveBound(s);
  }

  lemma SlotBound(y: Layout, s: Sys, id: nat)
    requires Counted(y, s) && Holds(s, id)
    ensures s.waves[id].slot < SLOTS
  {
  }

  lemma HomeIs(y: Layout, w: Wave, addr: nat, k: nat)
    requires OnSlot(w, addr, y, k) && SomeLane(w.exec, 0)
    ensures w.Lane64(addr, FirstLane(w.exec)) == (y.base + 4 * k) % TWO64
  {
    hide Wave.Lane64;
  }

  /** After the step the wave is where the system says: as before, or after one event of its own. */
  ghost predicate Follows(c: Script, y: Layout, b: Agent, n: Mem, id: nat, s: Sys, o: Option<Event>) {
    match o
    case None => SameWords(y, s.mem, n) && Phased(c, y, b, id, s)
    case Some(e) =>
      e.id == id && Enabled(s, e) && SameWords(y, Apply(y, s, e).mem, n) && Phased(c, y, b, id, Apply(y, s, e))
  }

  /** A working wave at a send: the store is Send of the word it stores. */
  lemma {:induction false} SendRefines(c: Script, y: Layout, a: Agent, m: Mem, b: Agent, n: Mem, id: nat, s: Sys,
                                       home: nat)
    returns (o: Option<Event>)
    requires Laid(c, y) && SameWords(y, s.mem, m) && a.stage == Working(home) && Phased(c, y, a, id, s)
    requires a.w.pc in c.sends && SomeLane(a.w.exec, 0) && AllAt(a.w, c.r.addr, home)
    requires Step(c.code, a.w, m) == (b.w, n) && b.stage == a.stage
    ensures o == Some(Send(id, LastWord(a.w, c.sends[a.w.pc], 0))) && Follows(c, y, b, n, id, s, o)
  {
    hide Step, At, Registration, SendCode, DeinitCode, SomeLane, SlotAt, CounterAt, Wave.Lane64, LastWord, SameWords;
    var x := LastWord(a.w, c.sends[a.w.pc], 0);
    o := Some(Send(id, x));
    SendStep(y, On(s, m), id, c.code, a.w.pc, c.r.addr, c.sends[a.w.pc], a.w);
    SameEvent(y, s, m, Send(id, x));
  }

  lemma {:induction false} RetiringRefines(c: Script, y: Layout, a: Agent, m: Mem, b: Agent, n: Mem, id: nat, s: Sys,
                                           e: Wave, f: seq<Mem>)
    returns (o: Option<Event>)
    requires Laid(c, y) && SameWords(y, s.mem, m) && |f| < 3 && Entered(c, y, e, c.stop, f, a.w)
    requires id in s.waves && if |f| < 2 then s.waves[id].Sending? else s.waves[id].Retired?
    requires Step(c.code, a.w, m) == (b.w, n) && b.stage == if |f| + 1 < 3 then Retiring(e, f + [m]) else Gone
    ensures Follows(c, y, b, n, id, s, o) && (o.Some? ==> !o.value.Send?)
  {
    hide Step, Run, At, Registration, SendCode, DeinitCode, SlotAt, CounterAt, Wave.Scalar64, SameWords;
    RetirementStep(c, y, e, f, m, a.w);
    o := None;
    if |f| == 1 {
      o := Some(Retire(id));
      SameEvent(y, s, m, Retire(id));
      assert Count(y, On(s, m)) == ReadMem(m, CounterAt(y));
    }
  }

  /** The wave's own code. */
  lemma IdleFollows(c: Script, y: Layout, a: Agent, m: Mem, b: Agent, n: Mem, id: nat, s: Sys)
    requires SameWords(y, s.mem, m) && SameWords(y, m, n) && Phased(c, y, a, id, s)
    requires b.stage == a.stage && (a.stage.Before? || a.stage.Working? || a.stage.Gone?)
    ensures Follows(c, y, b, n, id, s, None)
  {
    hide CounterAt, SlotAt;
  }

  /** The word a step sends, if it is a send. */
  ghost predicate Sends(c: Script, a: Agent, x: Word) {
    a.stage.Working? && a.w.pc != c.stop && a.w.pc in c.sends && x == LastWord(a.w, c.sends[a.w.pc], 0)
  }

  /** One instruction of a worker is one event of its wave or none, and only a send sends. */
  lemma {:induction false} AgentRefines(c: Script, y: Layout, a: Agent, m: Mem, b: Agent, n: Mem, id: nat, s: Sys)
    returns (o: Option<Event>)
    requires Laid(c, y) && Counted(y, s) && SameWords(y, s.mem, m)
    requires Phased(c, y, a, id, s) && AgentStep(c, y, a, m, b, n)
    ensures Follows(c, y, b, n, id, s, o)
    ensures o.Some? && o.value.Send? ==> Sends(c, a, o.value.x)
  {
    hide Laid, Step, Run, At, SomeLane, Wave.Scalar64, Wave.Lane64, Counted, SameWords, AllAt, LastWord, Follows;
    match a.stage
    case Before =>
      if a.w.pc == c.start {
        assert Entered(c, y, a.w, c.start, [], a.w) by { JustEntered(c, y, a.w, c.start); }
        o := RegisteringRefines(c, y, a, m, b, n, id, s, a.w, []);
        assert [] + [m] == [m];
      } else {
        o := None;
        IdleFollows(c, y, a, m, b, n, id, s);
      }
    case Registering(e, f) => o := RegisteringRefines(c, y, a, m, b, n, id, s, e, f);
    case Working(home) =>
      if a.w.pc == c.stop {
        assert Entered(c, y, a.w, c.stop, [], a.w) by { JustEntered(c, y, a.w, c.stop); }
        o := RetiringRefines(c, y, a, m, b, n, id, s, a.w, []);
      } else if a.w.pc in c.sends {
        o := SendRefines(c, y, a, m, b, n, id, s, home);
      } else {
        o := None;
        IdleFollows(c, y, a, m, b, n, id, s);
      }
    case Retiring(e, f) => o := RetiringRefines(c, y, a, m, b, n, id, s, e, f);
    case Gone =>
      o := None;
      IdleFollows(c, y, a, m, b, n, id, s);
  }

  lemma JustEntered(c: Script, y: Layout, w: Wave, p: nat)
    requires w.pc == p && w.Scalar64(c.r.slot) == y.base
    ensures Entered(c, y, w, p, [], w)
  {
  }

  // ---------------------------------------------------------------------------------------------
  // Whole runs
  // ---------------------------------------------------------------------------------------------

  /** One step of the machine is one event of the system or none. */
  lemma {:induction false} StepRefines(c: Script, y: Layout, a: Machine, x: Mover, b: Machine, s: Sys)
    returns (o: Option<Event>)
    requires Laid(c, y) && Refines(c, y, a, s) && |a.agents| < SLOTS && MachineStep(c, y, a, x, b)
    ensures b.agents.Keys == a.agents.Keys
    ensures match o case None => Refines(c, y, b, s) case Some(e) => Enabled(s, e) && Refines(c, y, b, Apply(y, s, e))
    ensures o.Some? && o.value.Send? ==> x.Agents? && x.id in a.agents && Sends(c, a.agents[x.id], o.value.x)
  {
    hide Laid, AgentStep, Counted, Phased, Sends, Apply, SameWords;
    o := None;
    match x
    case Other => SameTwice(y, s.mem, a.mem, b.mem);
    case Agents(id) =>
      o := AgentRefines(c, y, a.agents[id], a.mem, b.agents[id], b.mem, id, s);
      if o.Some? {
        LaidApart(c, y);
        EventRefines(c, y, a, id, b, s, o.value);
      }
  }

  lemma {:induction false} EventRefines(c: Script, y: Layout, a: Machine, id: nat, b: Machine, s: Sys, e: Event)
    requires Apart(y) && Refines(c, y, a, s) && |a.agents| < SLOTS && id in a.agents && id in b.agents
    requires b.agents == a.agents[id := b.agents[id]] && Follows(c, y, b.agents[id], b.mem, id, s, Some(e))
    ensures Refines(c, y, b, Apply(y, s, e))
  {
    hide Counted, SameWords, Apply, Phased, Live, Count;
    if e.Register? { RoomLeft(s, a, id); }
    StepCounts(y, s, e);
    OthersStay(y, s, e);
    forall j | j in b.agents ensures Phased(c, y, b.agents[j], j, Apply(y, s, e)) {
      if j != id { PhaseStays(c, y, a.agents[j], j, s, Apply(y, s, e)); }
    }
  }

  lemma OthersStay(y: Layout, s: Sys, e: Event)
    requires Enabled(s, e)
    ensures Apply(y, s, e).waves.Keys == s.waves.Keys + {e.id}
    ensures forall j: nat :: j != e.id ==> (j in s.waves <==> j in Apply(y, s, e).waves)
    ensures forall j: nat :: j != e.id && j in s.waves ==> Apply(y, s, e).waves[j] == s.waves[j]
  {
    hide CounterAt, SlotAt, Count;
  }

  lemma PhaseStays(c: Script, y: Layout, g: Agent, id: nat, s: Sys, s': Sys)
    requires Phased(c, y, g, id, s) && (id in s.waves <==> id in s'.waves) &&
      (id in s.waves ==> s'.waves[id] == s.waves[id])
    ensures Phased(c, y, g, id, s')
  {
    hide Entered, Given;
  }

  lemma SameTwice(y: Layout, l: Mem, m: Mem, n: Mem)
    requires SameWords(y, l, m) && SameWords(y, m, n)
    ensures SameWords(y, l, n)
  {
    hide CounterAt, SlotAt;
  }

  lemma RoomLeft(s: Sys, a: Machine, id: nat)
    requires s.waves.Keys <= a.agents.Keys && id in a.agents && |a.agents| < SLOTS && id !in s.waves
    ensures |s.waves| + 1 < SLOTS
  {
    assert |s.waves.Keys + {id}| == |s.waves| + 1;
    SubsetSize(s.waves.Keys + {id}, a.agents.Keys);
  }

  lemma {:induction false} Snoc(y: Layout, s: Sys, es: seq<Event>, e: Event)
    requires Legal(y, s, es) && Enabled(After(y, s, es), e)
    ensures Legal(y, s, es + [e]) && After(y, s, es + [e]) == Apply(y, After(y, s, es), e)
    decreases |es|
  {
    hide Apply;
    if es == [] {
      assert es + [e] == [e] && [e][1..] == [];
    } else {
      Snoc(y, Apply(y, s, es[0]), es[1..], e);
      assert (es + [e])[1..] == es[1..] + [e];
    }
  }

  lemma {:induction false} WavesAre(y: Layout, s: Sys, es: seq<Event>)
    requires Legal(y, s, es)
    ensures |After(y, s, es).waves| == |s.waves| + Arrivals(es)
    decreases |es|
  {
    hide Apply;
    if es != [] {
      WavesAfter(y, s, es[0]);
      WavesAre(y, Apply(y, s, es[0]), es[1..]);
    }
  }

  /** Some worker's send stored x before moment t. */
  ghost predicate SentBefore(c: Script, ms: seq<Machine>, xs: seq<Mover>, t: nat, x: Word)
    requires |ms| == |xs| + 1
  {
    exists u :: 0 <= u < t && u < |xs| && SendsAt(c, ms[u], xs[u], x)
  }

  ghost predicate SendsAt(c: Script, m: Machine, v: Mover, x: Word) {
    v.Agents? && v.id in m.agents && Sends(c, m.agents[v.id], x)
  }

  /** The system at the start of a run. */
  function Begin(m: Machine): Sys {
    Sys(m.mem, map[], {})
  }

  /** At moment t the machine is where the system is after the events es, and everything sent was stored
      by a send before. */
  ghost predicate Traced(c: Script, y: Layout, ms: seq<Machine>, xs: seq<Mover>, t: nat, es: seq<Event>)
    requires |ms| == |xs| + 1 && t < |ms|
  {
    && Legal(y, Begin(ms[0]), es) && Arrivals(es) < SLOTS
    && Refines(c, y, ms[t], After(y, Begin(ms[0]), es)) && ms[t].agents.Keys == ms[0].agents.Keys
    && forall x :: x in After(y, Begin(ms[0]), es).sent ==> SentBefore(c, ms, xs, t, x)
  }

  lemma {:induction false} TracedStart(c: Script, y: Layout, ms: seq<Machine>, xs: seq<Mover>)
    requires |ms| == |xs| + 1 && Apart(y) && AtStart(y, ms[0])
    ensures Traced(c, y, ms, xs, 0, [])
  {
    hide CounterAt, SlotAt;
    InitialCounted(y, Begin(ms[0]));
  }

  /** The run goes on by one step: the events by one or none. */
  lemma {:induction false} TracedOn(c: Script, y: Layout, ms: seq<Machine>, xs: seq<Mover>, t: nat, es: seq<Event>)
    returns (o: Option<Event>)
    requires Laid(c, y) && MachineRun(c, y, ms, xs) && |ms[0].agents| < SLOTS && t < |xs| && Traced(c, y, ms, xs, t, es)
    ensures Traced(c, y, ms, xs, t + 1, if o.Some? then es + [o.value] else es)
  {
    hide Laid, Refines, MachineStep, Sends, Legal, After, Arrivals;
    var s := After(y, Begin(ms[0]), es);
    assert |ms[t].agents| == |ms[0].agents| by { assert |ms[t].agents.Keys| == |ms[0].agents.Keys|; }
    o := StepRefines(c, y, ms[t], xs[t], ms[t + 1], s);
    forall x | SentBefore(c, ms, xs, t, x) ensures SentBefore(c, ms, xs, t + 1, x) { SentStays(c, ms, xs, t, x); }
    if o.Some? {
      var e := o.value;
      Snoc(y, Begin(ms[0]), es, e);
      WavesAre(y, Begin(ms[0]), es + [e]);
      FewWaves(c, y, ms[t + 1], Apply(y, s, e));
      forall x | x in Apply(y, s, e).sent ensures SentBefore(c, ms, xs, t + 1, x) {
        if x !in s.sent {
          assert e.Send? && x == e.x by { SentGrows(y, s, e, x); }
          assert SendsAt(c, ms[t], xs[t], x);
        }
      }
    }
  }

  lemma SentStays(c: Script, ms: seq<Machine>, xs: seq<Mover>, t: nat, x: Word)
    requires |ms| == |xs| + 1 && SentBefore(c, ms, xs, t, x)
    ensures SentBefore(c, ms, xs, t + 1, x)
  {
    hide SendsAt;
    var u :| 0 <= u < t && u < |xs| && SendsAt(c, ms[u], xs[u], x);
    assert 0 <= u < t + 1;
  }

  lemma SentGrows(y: Layout, s: Sys, e: Event, x: Word)
    requires Enabled(s, e) && x in Apply(y, s, e).sent && x !in s.sent
    ensures e.Send? && x == e.x
  {
    hide CounterAt, SlotAt, Count;
  }

  lemma FewWaves(c: Script, y: Layout, a: Machine, s: Sys)
    requires Refines(c, y, a, s)
    ensures |s.waves| < SLOTS
  {
    hide SameWords, Phased;
  }

  /** Every run of the machine refines a run of the system: there are events, and at each moment a number
      of them, that never falls, after which the system is where the machine is. */
  lemma {:induction false} MachineRefines(c: Script, y: Layout, ms: seq<Machine>, xs: seq<Mover>, t: nat)
    returns (es: seq<Event>, when: seq<nat>)
    requires Laid(c, y) && MachineRun(c, y, ms, xs) && AtStart(y, ms[0]) && t < |ms|
    ensures |when| == t + 1 && when[t] == |es|
    ensures forall i, j :: 0 <= i < j <= t ==> when[i] <= when[j]
    ensures forall u :: 0 <= u <= t ==> when[u] <= |es| && Traced(c, y, ms, xs, u, es[..when[u]])
    decreases t
  {
    hide Laid, MachineStep, Traced;
    if t == 0 {
      es, when := [], [0];
      assert es[..0] == [];
      assert Apart(y) by { LaidApart(c, y); }
      TracedStart(c, y, ms, xs);
    } else {
      var es0, when0 := MachineRefines(c, y, ms, xs, t - 1);
      assert es0[..when0[t - 1]] == es0;
      var o := TracedOn(c, y, ms, xs, t - 1, es0);
      es := if o.Some? then es0 + [o.value] else es0;
      when := when0 + [|es|];
      assert es[..|es|] == es;
      forall u | 0 <= u <= t ensures when[u] <= |es| && Traced(c, y, ms, xs, u, es[..when[u]]) {
        if u < t {
          assert when0[u] <= |es0|;
          assert es[..when[u]] == es0[..when0[u]];
        }
      }
    }
  }

  lemma LaidApart(c: Script, y: Layout)
    requires Laid(c, y)
    ensures Apart(y)
  {
  }

  // ---------------------------------------------------------------------------------------------
  // The fetch wave beside them
  // ---------------------------------------------------------------------------------------------

  /** Active lane k of a slot load finds what its slot held at moment at[k] of the run, no later than t. */
  ghost predicate FoundIn(y: Layout, active: Mask, ms: seq<Machine>, t: nat, at: seq<nat>, m: Mem)
    requires t < |ms|
  {
    |at| == POLLED && forall k :: 0 <= k < POLLED && active[k] ==>
      at[k] <= t && ReadMem(m, SlotAt(y, k)) == ReadMem(ms[at[k]].mem, SlotAt(y, k))
  }

  /** The steps of the system that some moments of the machine stand for. */
  function StepsAt(when: seq<nat>, at: seq<nat>): (ns: seq<nat>)
    ensures |ns| == |at| && forall k :: 0 <= k < |at| && at[k] < |when| ==> ns[k] == when[at[k]]
  {
    seq(|at|, k requires 0 <= k < |at| => if at[k] < |when| then when[at[k]] else 0)
  }

  /** What a load finds in the machine it finds in the system. */
  lemma {:induction false} FoundThere(c: Script, y: Layout, ms: seq<Machine>, xs: seq<Mover>, es: seq<Event>,
                                      when: seq<nat>, active: Mask, t: nat, at: seq<nat>, m: Mem)
    requires |when| == |ms| == |xs| + 1 && t < |ms| && Legal(y, Begin(ms[0]), es)
    requires forall i, j :: 0 <= i < j < |ms| ==> when[i] <= when[j]
    requires forall u :: 0 <= u < |ms| ==> when[u] <= |es| && Traced(c, y, ms, xs, u, es[..when[u]])
    requires FoundIn(y, active, ms, t, at, m)
    ensures FoundDuring(y, Begin(ms[0]), active, es, when[t], StepsAt(when, at), m)
  {
    hide Traced, Legal, After, SlotAt, CounterAt, SentBefore, Begin, Arrivals;
    forall k | 0 <= k < POLLED && active[k]
      ensures when[at[k]] <= when[t]
      ensures ReadMem(m, SlotAt(y, k)) == ReadMem(StateAt(y, Begin(ms[0]), es, when[at[k]]).mem, SlotAt(y, k))
    {
      TracedFacts(c, y, ms, xs, at[k], es[..when[at[k]]]);
    }
  }

  /** Workers in any number and any interleaving, each running its emitted code; beside them a wave that
      runs the emitted prefetch loop, lane k of whose slot load in turn t reads at moment at[t][k], no
      later than time[t]. Every index it hands over had been stored before by the emitted send of a
      worker, if no polled slot started with an index. */
  lemma {:induction false} FetchedWasStored(c: Script, y: Layout, ms: seq<Machine>, xs: seq<Mover>, time: seq<nat>,
                                            at: seq<seq<nat>>,
                                            code: seq<Instr>, q: nat, r: PendCode.PendRegs, a: PendCode.PendArgs,
                                            w: Wave, setup: seq<Mem>,
                                            ws: seq<Wave>, scheds: seq<seq<Mem>>, os: seq<Outcome>)
    requires Laid(c, y) && MachineRun(c, y, ms, xs) && AtStart(y, ms[0])
    requires Clean(y, LowHalf(w.exec), ms[0].mem)
    requires PendCode.Separate(r, a) && Entry(w, a) && w.pc == q && |setup| >= 8
    requires At(code, q, PendCode.PendSetup(r, a)) && At(code, q + 8, PendCode.PendLoop(r, a))
    requires Target(code, a.begin) == q + 8 && w.Scalar64(a.slot) == y.base && a.signalOffset == y.signalOffset
    requires Turns(code, q + 8, r, a, LowHalf(w.exec), ws, scheds, os) && ws[0] == Run(code, w, setup, 8)
    requires |time| == |at| == |os| && forall t :: 0 <= t < |os| ==> time[t] < |ms|
    requires forall t :: 0 <= t < |os| ==> FoundIn(y, LowHalf(w.exec), ms, time[t], at[t], scheds[t][7])
    ensures forall t :: 0 <= t < |os| && os[t].Deliver? ==> SentBefore(c, ms, xs, time[t], os[t].signal)
  {
    hide Laid, MachineStep, Traced, At, Target, Run, PendCode.PendSetup, PendCode.PendLoop, TurnStep, LowHalf,
         PendCode.Separate, Entry, Wave.Scalar64, Clean, FoundDuring, FoundIn, After, Legal, Arrivals, SentBefore,
         AtStart;
    var es, when := MachineRefines(c, y, ms, xs, |ms| - 1);
    StartOfRun(c, y, ms[0]);
    assert es[..when[|ms| - 1]] == es;
    TracedFacts(c, y, ms, xs, |ms| - 1, es);
    var steps := seq(|os|, t requires 0 <= t < |os| => when[time[t]]);
    var lanes := seq(|os|, t requires 0 <= t < |os| => StepsAt(when, at[t]));
    forall t | 0 <= t < |os|
      ensures FoundDuring(y, Begin(ms[0]), LowHalf(w.exec), es, steps[t], lanes[t], scheds[t][7])
      ensures forall x :: x in StateAt(y, Begin(ms[0]), es, steps[t]).sent ==> SentBefore(c, ms, xs, time[t], x)
    {
      TracedFacts(c, y, ms, xs, time[t], es[..steps[t]]);
      FoundThere(c, y, ms, xs, es, when, LowHalf(w.exec), time[t], at[t], scheds[t][7]);
    }
    EveryFetchWasSent(y, Begin(ms[0]), es, steps, lanes, code, q, r, a, w, setup, ws, scheds, os);
  }

  lemma StartOfRun(c: Script, y: Layout, m: Machine)
    requires Laid(c, y) && AtStart(y, m)
    ensures Apart(y) && Initial(y, Begin(m)) && Begin(m).mem == m.mem
  {
    hide CounterAt, SlotAt;
  }

  lemma TracedFacts(c: Script, y: Layout, ms: seq<Machine>, xs: seq<Mover>, t: nat, es: seq<Event>)
    requires |ms| == |xs| + 1 && t < |ms| && Traced(c, y, ms, xs, t, es)
    ensures Legal(y, Begin(ms[0]), es) && Arrivals(es) < SLOTS
    ensures SameWords(y, After(y, Begin(ms[0]), es).mem, ms[t].mem)
    ensures forall x :: x in After(y, Begin(ms[0]), es).sent ==> SentBefore(c, ms, xs, t, x)
  {
    hide SameWords, SentBefore, Phased, Counted;
  }

  /** A worker whose atomic add has been executed and whose atomic subtract has not. */
  predicate InService(g: Agent) {
    match g.stage
    case Registering(_, f) => |f| >= 2
    case Working(_) => true
    case Retiring(_, f) => |f| < 2
    case _ => false
  }

  lemma ServiceIsLive(c: Script, y: Layout, a: Machine, s: Sys)
    requires Refines(c, y, a, s)
    ensures Live(s) == {} <==> forall id :: id in a.agents ==> !InService(a.agents[id])
  {
    hide SameWords, Counted, Entered, Given;
    forall id | id in a.agents ensures id in Live(s) <==> InService(a.agents[id]) {
      assert Phased(c, y, a.agents[id], id, s);
    }
    forall id | id in Live(s) ensures id in a.agents {}
    if Live(s) == {} {
      forall id | id in a.agents ensures !InService(a.agents[id]) { assert id !in Live(s); }
    }
  }

  /** The fetch wave leaves its loop exactly when, at the moment it read the counter, no worker was in
      service. */
  lemma {:induction false} LeavesWhenNobodyServes(c: Script, y: Layout, ms: seq<Machine>, xs: seq<Mover>, u: nat,
                                                  code: seq<Instr>, p: nat, r: PendCode.PendRegs, a: PendCode.PendArgs,
                                                  active: Mask, f: Fetch, w: Wave, sched: seq<Mem>)
    requires Laid(c, y) && MachineRun(c, y, ms, xs) && AtStart(y, ms[0]) && u < |ms|
    requires PendCode.Separate(r, a) && At(code, p, PendCode.PendLoop(r, a)) && AtHead(w, p, r, a, y.base, active, f)
    requires a.waveOffset == y.waveOffset && |sched| >= 27 && Target(code, a.begin) == p
    requires Target(code, a.end) != p + 7
    requires ReadMem(sched[3], CounterAt(y)) == ReadMem(ms[u].mem, CounterAt(y))
    ensures Run(code, w, sched, 7).pc == Target(code, a.end) <==>
      forall id :: id in ms[u].agents ==> !InService(ms[u].agents[id])
  {
    hide Laid, MachineStep, At, Target, Run, PendCode.PendLoop, PendCode.Separate, After, Legal, Arrivals, SentBefore,
      AtStart,
         AtHead, Live, InService, CounterAt, SlotAt, Phased, Counted;
    var es, when := MachineRefines(c, y, ms, xs, u);
    assert es[..when[u]] == es;
    StartOfRun(c, y, ms[0]);
    ServiceIsLive(c, y, ms[u], After(y, Begin(ms[0]), es));
    LeavesWhenNobodyIsLive(y, Begin(ms[0]), es, code, p, r, a, active, f, w, sched);
  }
}

/** The shared memory of one compute unit while worker waves come, send and go: a counter of
    registered waves, which also hands out slots, and one word a slot. */
module Signals {
  import opened Words
  import opened Isa
  import opened Sets

  /** Where the words lie: the slot base address and the two word offsets. */
  datatype Layout = Layout(base: nat, waveOffset: nat, signalOffset: nat)

  const SLOTS := 0x4000_0000

  /** Offsets for which counter and slot words are different words and the reset hits the counter. */
  predicate Apart(y: Layout) {
    y.waveOffset == 0 && 1 <= y.signalOffset < SLOTS
  }

  function CounterAt(y: Layout): nat {
    Effective(y.base, 4 * y.waveOffset)
  }

  function SlotAt(y: Layout, k: nat): nat {
    Effective((y.base + 4 * k) % TWO64, 4 * y.signalOffset)
  }

  /** A wave that took part: registered but its slot not cleared yet, sending, or retired. */
  datatype Phase = Waiting(slot: nat) | Sending(slot: nat, last: Word) | Retired

  datatype Sys = Sys(mem: Mem, waves: map<nat, Phase>, sent: set<Word>)

  datatype Event = Register(id: nat) | Clear(id: nat) | Send(id: nat, x: Word) | Retire(id: nat)

  predicate Enabled(s: Sys, e: Event) {
    match e
    case Register(id) => id !in s.waves
    case Clear(id) => id in s.waves && s.waves[id].Waiting?
    case Send(id, _) => id in s.waves && s.waves[id].Sending?
    case Retire(id) => id in s.waves && s.waves[id].Sending?
  }

  function Count(y: Layout, s: Sys): Word {
    ReadMem(s.mem, CounterAt(y))
  }

  /** The one access to shared memory each group of emitted instructions makes. */
  function Apply(y: Layout, s: Sys, e: Event): Sys
    requires Enabled(s, e)
  {
    match e
    case Register(id) =>
      s.(mem := s.mem[CounterAt(y) := ToWord(Count(y, s) + 1)], waves := s.waves[id := Waiting(Count(y, s))])
    case Clear(id) =>
      var k := s.waves[id].slot;
      s.(mem := s.mem[SlotAt(y, k) := 0], waves := s.waves[id := Sending(k, 0)])
    case Send(id, x) =>
      var k := s.waves[id].slot;
      s.(mem := s.mem[SlotAt(y, k) := x], waves := s.waves[id := Sending(k, x)], sent := s.sent + {x})
    case Retire(id) =>
      s.(mem := s.mem[CounterAt(y) := ToWord(Count(y, s) - 1)], waves := s.waves[id := Retired])
  }

  /** After the reset: nobody has registered. */
  predicate Initial(y: Layout, s: Sys) {
    Count(y, s) == 0 && s.waves == map[] && s.sent == {}
  }

  predicate Legal(y: Layout, s: Sys, es: seq<Event>)
    decreases |es|
  {
    es == [] || (Enabled(s, es[0]) && Legal(y, Apply(y, s, es[0]), es[1..]))
  }

  function After(y: Layout, s: Sys, es: seq<Event>): Sys
    requires Legal(y, s, es)
    decreases |es|
  {
    if es == [] then s else After(y, Apply(y, s, es[0]), es[1..])
  }

  /** How many waves register. */
  function Arrivals(es: seq<Event>): nat {
    if es == [] then 0 else (if es[0].Register? then 1 else 0) + Arrivals(es[1..])
  }

  // ---------------------------------------------------------------------------------------------
  // The counter
  // ---------------------------------------------------------------------------------------------

  predicate Holds(s: Sys, id: nat) {
    id in s.waves && !s.waves[id].Retired?
  }

  /** The registered waves that have not retired. */
  function Live(s: Sys): set<nat> {
    set id | id in s.waves && Holds(s, id)
  }

  /** What every reachable state satisfies as long as fewer than 2^30 waves took part. */
  ghost predicate Counted(y: Layout, s: Sys) {
    && Count(y, s) == |Live(s)|
    && |s.waves| < SLOTS
    && forall id :: Holds(s, id) ==> s.waves[id].slot < SLOTS
  }

  lemma LiveBound(s: Sys)
    ensures |Live(s)| <= |s.waves|
  {
    SubsetSize(Live(s), s.waves.Keys);
  }

  lemma SlotSum(y: Layout, k: nat)
    requires Apart(y)
    ensures SlotAt(y, k) == (y.base + 4 * k + 4 * y.signalOffset) % TWO64
  {
    ModSum(y.base + 4 * k, 4 * y.signalOffset);
  }

  lemma {:induction false} WordsApart(y: Layout, j: nat, k: nat)
    requires Apart(y) && j < SLOTS && k < SLOTS
    ensures SlotAt(y, k) != CounterAt(y)
    ensures j != k ==> SlotAt(y, j) != SlotAt(y, k)
  {
    SlotSum(y, j);
    SlotSum(y, k);
    ModSum(y.base, 4 * k + 4 * y.signalOffset);
    if j < k { ModSum(y.base + 4 * j + 4 * y.signalOffset, 4 * (k - j)); }
    if k < j { ModSum(y.base + 4 * k + 4 * y.signalOffset, 4 * (j - k)); }
  }

  /** Only registering and retiring change who is live, and nobody changes a slot twice. */
  lemma LiveAfter(y: Layout, s: Sys, e: Event)
    requires Enabled(s, e)
    ensures var s' := Apply(y, s, e);
      && Live(s') == (if e.Register? then Live(s) + {e.id} else if e.Retire? then Live(s) - {e.id} else Live(s))
      && s'.waves.Keys == s.waves.Keys + {e.id}
      && (e.Register? <==> e.id !in s.waves) && (e.Retire? ==> e.id in Live(s))
      && (forall id :: Holds(s', id) ==>
        if e == Register(id) then s'.waves[id].slot == Count(y, s)
        else Holds(s, id) && s'.waves[id].slot == s.waves[id].slot)
  {
    hide Count, SlotAt, CounterAt;
    var s' := Apply(y, s, e);
    assert s'.waves.Keys == s.waves.Keys + {e.id};
    forall id ensures Holds(s', id) <==> (Holds(s, id) && e != Retire(id)) || e == Register(id) {}
    assert Live(s') == (if e.Register? then Live(s) + {e.id} else if e.Retire? then Live(s) - {e.id} else Live(s));
  }

  lemma CountAfter(y: Layout, s: Sys, e: Event)
    requires Apart(y) && Counted(y, s) && Enabled(s, e)
    ensures Count(y, Apply(y, s, e)) ==
      if e.Register? then Count(y, s) + 1 else if e.Retire? then Count(y, s) - 1 else Count(y, s)
  {
    hide CounterAt, SlotAt, Live;
    LiveBound(s);
    if e.Retire? { RetireLive(s, e.id); }
    if e.Clear? || e.Send? {
      assert Holds(s, e.id);
      WordsApart(y, s.waves[e.id].slot, s.waves[e.id].slot);
    }
  }

  lemma RetireLive(s: Sys, id: nat)
    requires Holds(s, id)
    ensures |Live(s)| > 0 && |Live(s) - {id}| == |Live(s)| - 1
  {
    assert id in Live(s);
  }

  lemma StepCounts(y: Layout, s: Sys, e: Event)
    requires Apart(y) && Counted(y, s) && Enabled(s, e) && (e.Register? ==> |s.waves| + 1 < SLOTS)
    ensures Counted(y, Apply(y, s, e))
  {
    hide Count, Apply, Live;
    LiveBound(s);
    LiveAfter(y, s, e);
    CountAfter(y, s, e);
    if e.Retire? { RetireLive(s, e.id); }
    if e.Register? { assert e.id !in Live(s) by { NotLive(s, e.id); } }
    assert |s.waves.Keys + {e.id}| <= |s.waves| + 1;
  }

  lemma NotLive(s: Sys, id: nat)
    requires id !in s.waves
    ensures id !in Live(s)
  {
  }

  lemma WavesAfter(y: Layout, s: Sys, e: Event)
    requires Enabled(s, e)
    ensures |Apply(y, s, e).waves| == |s.waves| + if e.Register? then 1 else 0
  {
    hide Count, CounterAt, SlotAt;
    assert Apply(y, s, e).waves.Keys == s.waves.Keys + {e.id};
    if !e.Register? { assert s.waves.Keys + {e.id} == s.waves.Keys; }
  }

  /** One step of a run: the invariant and the room that is left. */
  lemma StepOn(y: Layout, s: Sys, es: seq<Event>)
    requires Apart(y) && Counted(y, s) && es != [] && Enabled(s, es[0]) && |s.waves| + Arrivals(es) < SLOTS
    ensures Counted(y, Apply(y, s, es[0])) && |Apply(y, s, es[0]).waves| + Arrivals(es[1..]) < SLOTS
  {
    hide Apply, Counted;
    StepCounts(y, s, es[0]);
    WavesAfter(y, s, es[0]);
  }

  /** In every run with fewer than 2^30 waves, the counter is the number of waves registered and not yet
      retired, so it reads zero exactly when no wave is registered. */
  lemma {:induction false} CounterCountsLive(y: Layout, s: Sys, es: seq<Event>)
    requires Apart(y) && Counted(y, s) && Legal(y, s, es) && |s.waves| + Arrivals(es) < SLOTS
    ensures Counted(y, After(y, s, es))
    ensures Count(y, After(y, s, es)) == 0 <==> Live(After(y, s, es)) == {}
    decreases |es|
  {
    if es != [] {
      hide Apply, Count, Live;
      StepOn(y, s, es);
      CounterCountsLive(y, Apply(y, s, es[0]), es[1..]);
    }
  }

  lemma InitialCounted(y: Layout, s: Sys)
    requires Initial(y, s)
    ensures Counted(y, s) && Live(s) == {}
  {
    assert Live(s) == {};
  }

  // ---------------------------------------------------------------------------------------------
  // Slots: who shares one?
  // ---------------------------------------------------------------------------------------------

  ghost predicate DistinctSlots(s: Sys) {
    forall a, b :: Holds(s, a) && Holds(s, b) && a != b ==> s.waves[a].slot != s.waves[b].slot
  }

  ghost predicate Taken(s: Sys, k: nat) {
    exists id :: Holds(s, id) && s.waves[id].slot == k
  }

  /** The live waves hold exactly the slots below the counter. */
  ghost predicate Dense(y: Layout, s: Sys) {
    DistinctSlots(s) && forall id :: Holds(s, id) ==> s.waves[id].slot < Count(y, s)
  }

  /** One more registration shares a slot exactly when a live wave already holds the slot whose number
      the counter shows. */
  lemma RegisterDistinct(y: Layout, s: Sys, id: nat)
    requires DistinctSlots(s) && id !in s.waves
    ensures DistinctSlots(Apply(y, s, Register(id))) <==> !Taken(s, Count(y, s))
  {
    hide Count, CounterAt;
    var s' := Apply(y, s, Register(id));
    if a :| Holds(s, a) && s.waves[a].slot == Count(y, s) {
      assert Holds(s', a) && Holds(s', id) && s'.waves[a].slot == s'.waves[id].slot;
    }
  }

  /** Registering n more waves keeps all slots distinct exactly when none of the next n slots is held. */
  lemma {:induction false} RegisterMore(y: Layout, s: Sys, ids: seq<nat>)
    requires Apart(y) && Counted(y, s) && DistinctSlots(s) && |s.waves| + |ids| < SLOTS
    requires Legal(y, s, Registers(ids))
    ensures var s' := After(y, s, Registers(ids));
      DistinctSlots(s') <==> forall k :: Count(y, s) <= k < Count(y, s) + |ids| ==> !Taken(s, k)
    decreases |ids|
  {
    if ids != [] {
      hide Count, Live, DistinctSlots, Taken, Apply, Holds;
      var e := Register(ids[0]);
      assert Enabled(s, e);
      var s1 := Apply(y, s, e);
      assert Registers(ids)[1..] == Registers(ids[1..]);
      StepCounts(y, s, e);
      CountAfter(y, s, e);
      RegisterDistinct(y, s, ids[0]);
      if DistinctSlots(s1) {
        OneMore(y, s, ids[0]);
        RegisterMore(y, s1, ids[1..]);
        FreeRange(y, s, ids[0], |ids|);
      } else {
        SharingStays(y, s1, ids[1..]);
      }
    }
  }

  lemma OneMore(y: Layout, s: Sys, id: nat)
    requires id !in s.waves
    ensures |Apply(y, s, Register(id)).waves| == |s.waves| + 1
  {
    assert Apply(y, s, Register(id)).waves.Keys == s.waves.Keys + {id};
  }

  lemma FreeRange(y: Layout, s: Sys, id: nat, n: nat)
    requires id !in s.waves && n > 0
    ensures var c := Count(y, s);
      (forall k :: c <= k < c + n ==> !Taken(s, k)) <==>
      !Taken(s, c) && forall k :: c + 1 <= k < c + n ==> !Taken(Apply(y, s, Register(id)), k)
  {
    hide Count, Taken, Apply;
    forall k: nat | Count(y, s) < k ensures Taken(Apply(y, s, Register(id)), k) <==> Taken(s, k) {
      TakenAfterRegister(y, s, id, k);
    }
  }

  function Registers(ids: seq<nat>): (es: seq<Event>)
    ensures |es| == |ids| && forall i :: 0 <= i < |ids| ==> es[i] == Register(ids[i])
  {
    seq(|ids|, i requires 0 <= i < |ids| => Register(ids[i]))
  }

  lemma TakenAfterRegister(y: Layout, s: Sys, id: nat, k: nat)
    requires id !in s.waves && k != Count(y, s)
    ensures Taken(Apply(y, s, Register(id)), k) <==> Taken(s, k)
  {
    hide Count, CounterAt;
    var s' := Apply(y, s, Register(id));
    if a :| Holds(s, a) && s.waves[a].slot == k { assert Holds(s', a) && s'.waves[a].slot == k; }
    if a :| Holds(s', a) && s'.waves[a].slot == k { assert Holds(s, a) && s.waves[a].slot == k; }
  }

  /** Waves that share a slot share it as long as they are live. */
  lemma {:induction false} SharingStays(y: Layout, s: Sys, ids: seq<nat>)
    requires !DistinctSlots(s) && Legal(y, s, Registers(ids))
    ensures !DistinctSlots(After(y, s, Registers(ids)))
    decreases |ids|
  {
    if ids != [] {
      hide Count, CounterAt;
      assert Registers(ids)[1..] == Registers(ids[1..]);
      var s1 := Apply(y, s, Register(ids[0]));
      var a, b :| Holds(s, a) && Holds(s, b) && a != b && s.waves[a].slot == s.waves[b].slot;
      assert Holds(s1, a) && Holds(s1, b) && s1.waves[a].slot == s1.waves[b].slot;
      SharingStays(y, s1, ids[1..]);
    }
  }

  /** Dense is what lets registration go on: then any further waves get slots of their own. A live wave
      that holds slot k, at or above the counter, shares it once the counter has passed k. */
  lemma DenseIffSafe(y: Layout, s: Sys, ids: seq<nat>)
    requires Apart(y) && Counted(y, s) && DistinctSlots(s) && |s.waves| + |ids| < SLOTS
    requires Legal(y, s, Registers(ids))
    ensures Dense(y, s) <==> forall k: nat :: Taken(s, k) ==> k < Count(y, s)
    ensures Dense(y, s) ==> DistinctSlots(After(y, s, Registers(ids)))
    ensures forall k: nat :: Taken(s, k) && Count(y, s) <= k < Count(y, s) + |ids| ==>
      !DistinctSlots(After(y, s, Registers(ids)))
  {
    hide Count, Legal, After, Apply;
    RegisterMore(y, s, ids);
    forall id | Holds(s, id) ensures Taken(s, s.waves[id].slot) {}
  }

  ghost function SlotsOf(s: Sys, ids: set<nat>): set<nat> {
    set id | id in ids && Holds(s, id) :: s.waves[id].slot
  }

  lemma {:induction false} SlotsOfSize(s: Sys, ids: set<nat>)
    requires DistinctSlots(s) && forall id :: id in ids ==> Holds(s, id)
    ensures |SlotsOf(s, ids)| == |ids|
    decreases |ids|
  {
    if ids != {} {
      var a :| a in ids;
      SlotsOfSize(s, ids - {a});
      assert SlotsOf(s, ids) == SlotsOf(s, ids - {a}) + {s.waves[a].slot};
    }
  }

  /** In a dense state every slot below the counter has its wave. */
  lemma DenseTakesAll(y: Layout, s: Sys, k: nat)
    requires Counted(y, s) && Dense(y, s) && k < Count(y, s)
    ensures Taken(s, k)
  {
    hide Count;
    var ids := Live(s);
    SlotsOfSize(s, ids);
    assert SlotsOf(s, ids) <= Below(Count(y, s));
    SubsetSize(SlotsOf(s, ids), Below(Count(y, s)));
    assert k in SlotsOf(s, ids);
  }

  /** A retirement keeps the state dense exactly when it gives back the highest slot. */
  lemma RetireDense(y: Layout, s: Sys, id: nat)
    requires Apart(y) && Counted(y, s) && Dense(y, s) && Enabled(s, Retire(id))
    ensures Dense(y, Apply(y, s, Retire(id))) <==> s.waves[id].slot == Count(y, s) - 1
  {
    hide Count, CounterAt;
    var s' := Apply(y, s, Retire(id));
    CountAfter(y, s, Retire(id));
    assert forall b :: Holds(s', b) <==> Holds(s, b) && b != id;
    if s.waves[id].slot != Count(y, s) - 1 {
      DenseTakesAll(y, s, Count(y, s) - 1);
      var b :| Holds(s, b) && s.waves[b].slot == Count(y, s) - 1;
      assert Holds(s', b);
    }
  }

  /** Other steps keep it dense. */
  lemma OthersDense(y: Layout, s: Sys, e: Event)
    requires Apart(y) && Counted(y, s) && Dense(y, s) && Enabled(s, e) && !e.Retire?
    ensures Dense(y, Apply(y, s, e))
  {
    hide Count, Apply, Live;
    CountAfter(y, s, e);
    LiveAfter(y, s, e);
  }

  /** A step that is no registration makes no two waves share a slot. */
  lemma NoRegisterDistinct(y: Layout, s: Sys, e: Event)
    requires DistinctSlots(s) && Enabled(s, e) && !e.Register?
    ensures DistinctSlots(Apply(y, s, e))
  {
    hide Count, Apply, Live;
    LiveAfter(y, s, e);
  }

  /** When all registrations come before all retirements, the waves get slots 0, 1, 2, ..., no two live
      waves ever share one, and every wave finds in its slot what it wrote last: no send and no
      registration overwrites the signal of another. */
  lemma {:induction false} RegisterThenRetire(y: Layout, s: Sys, coming: seq<Event>, going: seq<Event>)
    requires Apart(y) && Counted(y, s) && Dense(y, s) && SlotsHold(y, s) && |s.waves| + Arrivals(coming) < SLOTS
    requires Legal(y, s, coming) && Legal(y, After(y, s, coming), going)
    requires forall i :: 0 <= i < |coming| ==> !coming[i].Retire?
    requires forall i :: 0 <= i < |going| ==> !going[i].Register?
    ensures Dense(y, After(y, s, coming)) && SlotsHold(y, After(y, s, coming))
    ensures DistinctSlots(After(y, After(y, s, coming), going)) && SlotsHold(y, After(y, After(y, s, coming), going))
    decreases |coming|, |going|
  {
    if coming != [] {
      hide Count, Apply, Live, Dense, DistinctSlots, SlotsHold, Counted;
      StepOn(y, s, coming);
      OthersDense(y, s, coming[0]);
      assert DistinctSlots(s) by { DenseDistinct(y, s); }
      StepKeepsSlots(y, s, coming[0]);
      RegisterThenRetire(y, Apply(y, s, coming[0]), coming[1..], going);
    } else {
      StaysDistinct(y, s, going);
    }
  }

  lemma DenseDistinct(y: Layout, s: Sys)
    requires Dense(y, s)
    ensures DistinctSlots(s)
  {
  }

  lemma {:induction false} StaysDistinct(y: Layout, s: Sys, es: seq<Event>)
    requires Apart(y) && Counted(y, s) && DistinctSlots(s) && SlotsHold(y, s) && Legal(y, s, es)
    requires forall i :: 0 <= i < |es| ==> !es[i].Register?
    ensures DistinctSlots(After(y, s, es)) && SlotsHold(y, After(y, s, es))
    decreases |es|
  {
    if es != [] {
      hide Apply, DistinctSlots, SlotsHold, Counted;
      StepCounts(y, s, es[0]);
      NoRegisterDistinct(y, s, es[0]);
      StepKeepsSlots(y, s, es[0]);
      StaysDistinct(y, Apply(y, s, es[0]), es[1..]);
    }
  }

  /** Without that order slots are shared: two waves register, the first retires, a third arrives. */
  lemma LateRegistrationShares(y: Layout, s: Sys)
    requires Apart(y) && Initial(y, s)
    ensures var es := [Register(0), Register(1), Clear(0), Retire(0), Register(2)];
      Legal(y, s, es) && var s' := After(y, s, es); Holds(s', 1) && Holds(s', 2) && s'.waves[1].slot == s'.waves[2].slot
  {
    hide CounterAt, SlotAt;
    WordsApart(y, 0, 0);
    var s1 := Apply(y, s, Register(0));
    var s2 := Apply(y, s1, Register(1));
    var s3 := Apply(y, s2, Clear(0));
    var s4 := Apply(y, s3, Retire(0));
    assert After(y, s4, [Register(2)]) == Apply(y, s4, Register(2));
    assert After(y, s3, [Retire(0), Register(2)]) == Apply(y, s4, Register(2));
    assert After(y, s2, [Clear(0), Retire(0), Register(2)]) == Apply(y, s4, Register(2));
    assert After(y, s1, [Register(1), Clear(0), Retire(0), Register(2)]) == Apply(y, s4, Register(2));
  }

  // ---------------------------------------------------------------------------------------------
  // What the slots contain
  // ---------------------------------------------------------------------------------------------

  /** Every sending wave finds in its slot what it wrote last. */
  ghost predicate SlotsHold(y: Layout, s: Sys) {
    forall id :: Holds(s, id) && s.waves[id].Sending? ==>
      ReadMem(s.mem, SlotAt(y, s.waves[id].slot)) == s.waves[id].last
  }

  /** While live waves have distinct slots, no step of one disturbs the slot of another. */
  lemma {:induction false} StepKeepsSlots(y: Layout, s: Sys, e: Event)
    requires Apart(y) && Counted(y, s) && DistinctSlots(s) && SlotsHold(y, s) && Enabled(s, e)
    ensures SlotsHold(y, Apply(y, s, e))
  {
    hide Count, CounterAt, SlotAt, Live;
    var s' := Apply(y, s, e);
    forall id | Holds(s', id) && s'.waves[id].Sending?
      ensures ReadMem(s'.mem, SlotAt(y, s'.waves[id].slot)) == s'.waves[id].last
    {
      var k := s'.waves[id].slot;
      assert Holds(s, id) && s.waves[id].slot == k;
      WordsApart(y, k, k);
      if e.id != id && Holds(s, e.id) { WordsApart(y, k, s.waves[e.id].slot); }
    }
  }

  /** What a step stores in the slot of its wave. */
  function Stored(e: Event): Word {
    if e.Send? then e.x else 0
  }

  /** A step disturbs another wave exactly when it is the send of a wave with the same slot, or the
      clearing of that slot by a wave that has just registered, and stores something else than that wave
      wrote last. */
  lemma {:induction false} StepDisturbs(y: Layout, s: Sys, e: Event, b: nat)
    requires Apart(y) && Counted(y, s) && Enabled(s, e) && b != e.id && Holds(s, b) && s.waves[b].Sending?
    requires ReadMem(s.mem, SlotAt(y, s.waves[b].slot)) == s.waves[b].last
    ensures ReadMem(Apply(y, s, e).mem, SlotAt(y, s.waves[b].slot)) != s.waves[b].last <==>
      (e.Send? || e.Clear?) && s.waves[e.id].slot == s.waves[b].slot && Stored(e) != s.waves[b].last
  {
    hide Count, CounterAt, SlotAt, Live;
    WordsApart(y, s.waves[b].slot, s.waves[b].slot);
    if e.Send? || e.Clear? {
      assert Holds(s, e.id);
      WordsApart(y, s.waves[b].slot, s.waves[e.id].slot);
    }
  }

  /** Every slot word is zero, was sent, or has never been written. */
  ghost predicate Sourced(y: Layout, first: Mem, s: Sys) {
    forall k :: 0 <= k < SLOTS ==>
      var x := ReadMem(s.mem, SlotAt(y, k)); x == 0 || x in s.sent || x == ReadMem(first, SlotAt(y, k))
  }

  lemma StepSourced(y: Layout, first: Mem, s: Sys, e: Event)
    requires Apart(y) && Counted(y, s) && Sourced(y, first, s) && Enabled(s, e)
    ensures Sourced(y, first, Apply(y, s, e))
  {
    hide Count, CounterAt, SlotAt, Live;
    var s' := Apply(y, s, e);
    forall k | 0 <= k < SLOTS
      ensures var x := ReadMem(s'.mem, SlotAt(y, k)); x == 0 || x in s'.sent || x == ReadMem(first, SlotAt(y, k))
    {
      WordsApart(y, k, k);
      if e.Clear? || e.Send? {
        assert Holds(s, e.id);
        WordsApart(y, k, s.waves[e.id].slot);
      }
    }
  }

  lemma {:induction false} RunSourced(y: Layout, first: Mem, s: Sys, es: seq<Event>)
    requires Apart(y) && Counted(y, s) && Sourced(y, first, s) && Legal(y, s, es) && |s.waves| + Arrivals(es) < SLOTS
    ensures Sourced(y, first, After(y, s, es))
    decreases |es|
  {
    if es != [] {
      hide Apply, Count, Live, Sourced, Counted;
      StepOn(y, s, es);
      StepSourced(y, first, s, es[0]);
      RunSourced(y, first, Apply(y, s, es[0]), es[1..]);
    }
  }
}

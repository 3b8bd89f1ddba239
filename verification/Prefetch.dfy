/** The filter at the heart of the prefetch loop: a bitmap of recently fetched indices kept in step
    with an 8-deep shift queue. It is compared with a reference that keeps the whole history. */
module Prefetch {
  import opened Words
  import opened Isa
  import opened Sets

  const DEPTH := 8

  /** What the fetch wave carries from one poll to the next: the flag word and lanes 0..7 of the
      index queue, oldest first. */
  datatype Fetch = Fetch(flag: Word, window: seq<Word>)

  /** What one poll sees: the slot value in each lane, and which lanes are active. */
  datatype Poll = Poll(active: Mask, signal: Lanes)

  datatype Outcome = Idle | Deliver(signal: Word)

  /** Indices are told apart by their low five bits. */
  function Index(x: Word): (k: nat)
    ensures k < 32
  {
    x % 32
  }

  const START := Fetch(0, [0, 0, 0, 0, 0, 0, 0, 0])

  function Hits(flag: Word, p: Poll): (m: Mask)
    ensures forall l :: 0 <= l < 64 ==> m[l] == (p.active[l] && !Bit(flag, Index(p.signal[l])))
  {
    seq(64, l requires 0 <= l < 64 => p.active[l] && !Bit(flag, Index(p.signal[l])))
  }

  /** One poll of the emitted loop, on its bitmap and its queue. */
  function PollBits(f: Fetch, p: Poll): (Fetch, Outcome)
    requires |f.window| == DEPTH
  {
    var flag := Or(f.flag, 1);
    var hits := Hits(flag, p);
    var l := FirstLane(hits);
    if !hits[l] then (f.(flag := flag), Idle)
    else
      var got := p.signal[l];
      (Fetch(WithBit(WithBit(flag, f.window[0], false), got, true), f.window[1..] + [got]), Deliver(got))
  }

  // ---------------------------------------------------------------------------------------------
  // Reference: remember everything delivered, look at the last eight.
  // ---------------------------------------------------------------------------------------------

  ghost predicate Recent(history: seq<Word>, k: nat) {
    exists i :: 0 <= i < |history| && |history| - DEPTH <= i && Index(history[i]) == k
  }

  ghost predicate Wanted(history: seq<Word>, x: Word) {
    Index(x) != 0 && !Recent(history, Index(x))
  }

  /** The lowest active lane whose index is not 0 and not among the last eight delivered. */
  ghost predicate FirstWanted(history: seq<Word>, p: Poll, l: nat) {
    l < 64 && p.active[l] && Wanted(history, p.signal[l]) &&
    forall k :: 0 <= k < l && p.active[k] ==> !Wanted(history, p.signal[k])
  }

  ghost predicate NoneWanted(history: seq<Word>, p: Poll) {
    forall l :: 0 <= l < 64 && p.active[l] ==> !Wanted(history, p.signal[l])
  }

  ghost predicate Reference(history: seq<Word>, p: Poll, o: Outcome) {
    match o
    case Idle => NoneWanted(history, p)
    case Deliver(x) => exists l: nat :: l < 64 && FirstWanted(history, p, l) && p.signal[l] == x
  }

  function Extend(history: seq<Word>, o: Outcome): seq<Word> {
    if o.Deliver? then history + [o.signal] else history
  }

  /** The bitmap agrees with the queue, and the queue holds no index twice. */
  ghost predicate Agrees(f: Fetch) {
    && |f.window| == DEPTH
    && (forall k: nat :: 1 <= k < 32 ==> (Bit(f.flag, k) <==> Queued(f.window, k)))
    && (forall i, j :: 0 <= i < j < DEPTH && Index(f.window[i]) == Index(f.window[j]) ==> Index(f.window[i]) == 0)
  }

  ghost predicate Queued(window: seq<Word>, k: nat) {
    exists i :: 0 <= i < |window| && Index(window[i]) == k
  }

  /** The queue holds the last eight deliveries, zeros where there were fewer. */
  ghost predicate Represents(f: Fetch, history: seq<Word>) {
    Agrees(f) && forall i :: 0 <= i < DEPTH ==> f.window[i] == FromEnd(history, DEPTH - i)
  }

  /** The delivery i places before the end, 0 when there were fewer. */
  function FromEnd(history: seq<Word>, i: nat): Word
    requires i > 0
  {
    if i <= |history| then history[|history| - i] else 0
  }

  lemma StartRepresents()
    ensures Represents(START, [])
  {
    var w := START.window;
    assert |w| == DEPTH && forall i :: 0 <= i < DEPTH ==> Index(w[i]) == 0;
    forall k: nat | 1 <= k < 32 ensures Bit(START.flag, k) <==> Queued(w, k) { ZeroBit(k); }
  }

  lemma QueuedIsRecent(f: Fetch, history: seq<Word>, k: nat)
    requires Represents(f, history) && k != 0
    ensures Queued(f.window, k) <==> Recent(history, k)
  {
    if Queued(f.window, k) {
      var i :| 0 <= i < DEPTH && Index(f.window[i]) == k;
      assert f.window[i] == history[|history| - (DEPTH - i)];
    }
    if Recent(history, k) {
      var i :| 0 <= i < |history| && |history| - DEPTH <= i && Index(history[i]) == k;
      assert Index(f.window[i + DEPTH - |history|]) == k;
    }
  }

  lemma OrOneBit(flag: Word, k: nat)
    requires k < 32
    ensures Bit(Or(flag, 1), k) == (k == 0 || Bit(flag, k))
  {
    OrBit(flag, 1, k);
    Pow2Bit(0, k);
    assert Pow2(0) == 1;
  }

  /** The bitmap test and the look into the history pick the same lanes. */
  lemma HitIsWanted(f: Fetch, history: seq<Word>, x: Word)
    requires Represents(f, history)
    ensures !Bit(Or(f.flag, 1), Index(x)) <==> Wanted(history, x)
  {
    OrOneBit(f.flag, Index(x));
    if Index(x) != 0 { QueuedIsRecent(f, history, Index(x)); }
  }

  lemma HitsAreWanted(f: Fetch, history: seq<Word>, p: Poll)
    requires Represents(f, history)
    ensures forall l :: 0 <= l < 64 ==> Hits(Or(f.flag, 1), p)[l] == (p.active[l] && Wanted(history, p.signal[l]))
  {
    hide Represents, Wanted, Or, Bit;
    forall l | 0 <= l < 64
      ensures Hits(Or(f.flag, 1), p)[l] == (p.active[l] && Wanted(history, p.signal[l]))
    {
      HitIsWanted(f, history, p.signal[l]);
    }
  }

  /** One poll on the bitmap decides exactly as the reference does. */
  lemma PollMatchesReference(f: Fetch, history: seq<Word>, p: Poll)
    requires |f.window| == DEPTH && Represents(f, history)
    ensures var (f', o) := PollBits(f, p);
      Reference(history, p, o) && Represents(f', Extend(history, o))
  {
    hide Hits, Wanted, Or, WithBit, Bit, Agrees;
    HitsAreWanted(f, history, p);
    var hits := Hits(Or(f.flag, 1), p);
    var l := FirstLane(hits);
    if hits[l] {
      assert FirstWanted(history, p, l);
      DeliverKeepsAgreement(f, p.signal[l]);
    } else {
      IdleKeepsAgreement(f);
    }
  }

  lemma IdleKeepsAgreement(f: Fetch)
    requires Agrees(f)
    ensures Agrees(f.(flag := Or(f.flag, 1)))
  {
    forall k: nat | 1 <= k < 32 ensures Bit(Or(f.flag, 1), k) <==> Bit(f.flag, k) { OrOneBit(f.flag, k); }
  }

  lemma DeliverKeepsAgreement(f: Fetch, got: Word)
    requires Agrees(f) && !Bit(Or(f.flag, 1), Index(got))
    ensures Agrees(Fetch(WithBit(WithBit(Or(f.flag, 1), f.window[0], false), got, true), f.window[1..] + [got]))
  {
    var flag := Or(f.flag, 1);
    var old0 := f.window[0];
    var window := f.window[1..] + [got];
    OrOneBit(f.flag, Index(got));
    assert !Queued(f.window, Index(got));
    forall k: nat | 1 <= k < 32
      ensures Bit(WithBit(WithBit(flag, old0, false), got, true), k) <==> Queued(window, k)
    {
      WithBitBit(WithBit(flag, old0, false), got, true, k);
      WithBitBit(flag, old0, false, k);
      OrOneBit(f.flag, k);
      ShiftedQueue(f.window, got, k);
    }
    forall i, j | 0 <= i < j < DEPTH && Index(window[i]) == Index(window[j]) ensures Index(window[i]) == 0 {
      assert window[i] == f.window[i + 1];
      if j < DEPTH - 1 { assert window[j] == f.window[j + 1]; }
    }
  }

  /** After a shift the queue holds k when k is got, or was held anywhere but in the oldest place. */
  lemma ShiftedQueue(window: seq<Word>, got: Word, k: nat)
    requires |window| == DEPTH
    ensures Queued(window[1..] + [got], k) <==> k == Index(got) || exists i :: 1 <= i < DEPTH && Index(window[i]) == k
  {
    var w := window[1..] + [got];
    if k == Index(got) { assert Index(w[DEPTH - 1]) == k; }
    if i :| 1 <= i < DEPTH && Index(window[i]) == k { assert Index(w[i - 1]) == k; }
    if Queued(w, k) {
      var i :| 0 <= i < |w| && Index(w[i]) == k;
      if i < DEPTH - 1 { assert Index(window[i + 1]) == k; }
    }
  }

  // ---------------------------------------------------------------------------------------------
  // Runs
  // ---------------------------------------------------------------------------------------------

  /** The loop run over a sequence of polls: the state at the last loop head and every outcome. */
  function Polling(f: Fetch, polls: seq<Poll>): (r: (Fetch, seq<Outcome>))
    requires |f.window| == DEPTH
    ensures |r.0.window| == DEPTH && |r.1| == |polls|
  {
    if polls == [] then (f, [])
    else
      var (g, os) := Polling(f, polls[..|polls| - 1]);
      var (g', o) := PollBits(g, polls[|polls| - 1]);
      (g', os + [o])
  }

  function Deliveries(os: seq<Outcome>): seq<Word> {
    if os == [] then [] else Extend(Deliveries(os[..|os| - 1]), os[|os| - 1])
  }

  /** Any nine consecutive deliveries are pairwise distinct, and index 0 never occurs. */
  ghost predicate Spaced(history: seq<Word>) {
    && (forall i :: 0 <= i < |history| ==> Index(history[i]) != 0)
    && (forall i, j :: 0 <= i < j < |history| && j - i <= DEPTH ==> Index(history[i]) != Index(history[j]))
  }

  lemma ReferenceKeepsSpaced(history: seq<Word>, p: Poll, o: Outcome)
    requires Spaced(history) && Reference(history, p, o)
    ensures Spaced(Extend(history, o))
  {
    if o.Deliver? {
      assert Wanted(history, o.signal);
      var h := history + [o.signal];
      forall i | 0 <= i < |history| && |history| - i <= DEPTH ensures Index(history[i]) != Index(o.signal) {
        if Index(history[i]) == Index(o.signal) { assert Recent(history, Index(o.signal)); }
      }
    }
  }

  lemma {:induction false} PollingPrefix(f: Fetch, polls: seq<Poll>, m: nat)
    requires |f.window| == DEPTH && m <= |polls|
    ensures Polling(f, polls[..m]).1 == Polling(f, polls).1[..m]
  {
    if m < |polls| {
      PollingPrefix(f, polls[..|polls| - 1], m);
      assert polls[..|polls| - 1][..m] == polls[..m];
    } else {
      assert polls[..m] == polls;
    }
  }

  /** What every loop head of every run from the start satisfies. */
  lemma {:induction false} LoopHead(polls: seq<Poll>)
    ensures var (f, os) := Polling(START, polls); Represents(f, Deliveries(os)) && Spaced(Deliveries(os))
  {
    if polls == [] {
      StartRepresents();
    } else {
      var n := |polls| - 1;
      LoopHead(polls[..n]);
      var (g, before) := Polling(START, polls[..n]);
      PollMatchesReference(g, Deliveries(before), polls[n]);
      var (f, os) := Polling(START, polls);
      assert os[..n] == before;
      ReferenceKeepsSpaced(Deliveries(before), polls[n], os[n]);
    }
  }

  lemma {:induction false} PollingStep(f: Fetch, polls: seq<Poll>, t: nat)
    requires |f.window| == DEPTH && t < |polls|
    ensures var (g, before) := Polling(f, polls[..t]);
      var (g', o) := PollBits(g, polls[t]);
      Polling(f, polls[..t + 1]) == (g', before + [o])
  {
    hide PollBits;
    assert polls[..t + 1][..t] == polls[..t];
  }

  lemma {:induction false} OutcomeAt(polls: seq<Poll>, t: nat)
    requires t < |polls|
    ensures var os := Polling(START, polls).1; Reference(Deliveries(os[..t]), polls[t], os[t])
  {
    hide Deliveries, Reference, Represents, PollBits, Polling;
    LoopHead(polls[..t]);
    var (g, before) := Polling(START, polls[..t]);
    PollMatchesReference(g, Deliveries(before), polls[t]);
    PollingStep(START, polls, t);
    PollingPrefix(START, polls, t + 1);
    PollingPrefix(START, polls, t);
  }

  /** Every outcome is the reference's for the deliveries before it, and deliveries are spaced. */
  ghost predicate FollowsReference(polls: seq<Poll>, os: seq<Outcome>) {
    && |os| == |polls|
    && Spaced(Deliveries(os))
    && forall t :: 0 <= t < |polls| ==> Reference(Deliveries(os[..t]), polls[t], os[t])
  }

  /** At every loop head of every run from the start the bitmap agrees with the queue, the queue
      holds the last eight deliveries, and the outcomes are those of the reference. */
  lemma {:induction false} EveryRun(polls: seq<Poll>)
    ensures var (f, os) := Polling(START, polls); Represents(f, Deliveries(os)) && FollowsReference(polls, os)
  {
    hide Polling, Deliveries, Reference, Represents, Spaced;
    LoopHead(polls);
    forall t | 0 <= t < |polls|
      ensures Reference(Deliveries(Polling(START, polls).1[..t]), polls[t], Polling(START, polls).1[t])
    {
      OutcomeAt(polls, t);
    }
  }

  // ---------------------------------------------------------------------------------------------
  // Frozen slots: from any reachable state, when do the fetches stop?
  // ---------------------------------------------------------------------------------------------

  /** The nonzero indices present in the polled slots. */
  ghost function Pending(p: Poll): set<nat> {
    set l: nat | l < 64 && p.active[l] && Index(p.signal[l]) != 0 :: Index(p.signal[l])
  }

  ghost function Indices(h: seq<Word>): set<nat> {
    set i | 0 <= i < |h| :: Index(h[i])
  }

  ghost predicate DistinctIndices(d: seq<Word>) {
    forall i, j :: 0 <= i < j < |d| ==> Index(d[i]) != Index(d[j])
  }

  lemma {:induction false} IndicesSize(h: seq<Word>)
    ensures |Indices(h)| <= |h|
    ensures DistinctIndices(h) ==> |Indices(h)| == |h|
  {
    if h != [] {
      var n := |h| - 1;
      IndicesSize(h[..n]);
      forall k ensures k in Indices(h) <==> k in Indices(h[..n]) + {Index(h[n])} {
        if i :| 0 <= i < n && Index(h[..n][i]) == k { assert Index(h[i]) == k; }
        if i :| 0 <= i < n && Index(h[i]) == k { assert Index(h[..n][i]) == k; }
      }
      assert Indices(h) == Indices(h[..n]) + {Index(h[n])};
    }
  }

  /** The outcomes of polling the same slots again and again, after a given history. */
  ghost predicate FrozenRun(history: seq<Word>, p: Poll, os: seq<Outcome>) {
    forall t :: 0 <= t < |os| ==> Reference(history + Deliveries(os[..t]), p, os[t])
  }

  lemma {:induction false} FrozenPrefix(history: seq<Word>, p: Poll, os: seq<Outcome>, t: nat)
    requires FrozenRun(history, p, os) && t <= |os|
    ensures FrozenRun(history, p, os[..t])
  {
    hide Deliveries, Reference;
    forall s | 0 <= s < t ensures Reference(history + Deliveries(os[..t][..s]), p, os[..t][s]) {
      assert os[..t][..s] == os[..s];
    }
  }

  /** Every pending index is among the last eight deliveries. */
  ghost predicate Quiet(history: seq<Word>, p: Poll) {
    forall k :: k in Pending(p) ==> Recent(history, k)
  }

  lemma IdleIsQuiet(history: seq<Word>, p: Poll, o: Outcome)
    requires Reference(history, p, o)
    ensures o.Idle? <==> Quiet(history, p)
  {
    if o.Idle? {
      forall k | k in Pending(p) ensures Recent(history, k) {
        var l: nat :| l < 64 && p.active[l] && Index(p.signal[l]) != 0 && Index(p.signal[l]) == k;
        assert !Wanted(history, p.signal[l]);
      }
    } else {
      var l: nat :| l < 64 && FirstWanted(history, p, l) && p.signal[l] == o.signal;
      assert Index(p.signal[l]) in Pending(p);
    }
  }

  /** A delivery that follows at most eight others has an index of its own, and it was pending. */
  lemma NextDelivery(history: seq<Word>, p: Poll, d: seq<Word>, x: Word)
    requires Reference(history + d, p, Deliver(x)) && |d| <= DEPTH
    requires DistinctIndices(d) && Indices(d) <= Pending(p)
    ensures DistinctIndices(d + [x]) && Indices(d + [x]) <= Pending(p)
  {
    forall i | 0 <= i < |d| ensures Index(d[i]) != Index(x) {
      assert (history + d)[|history| + i] == d[i];
    }
    assert Index(x) in Pending(p);
    forall k | k in Indices(d + [x]) ensures k in Pending(p) {
      var i :| 0 <= i < |d| + 1 && Index((d + [x])[i]) == k;
      if i < |d| { assert Index(d[i]) in Indices(d); }
    }
  }

  /** With at most eight indices pending, n polls deliver each pending index at most once, so at most
      as many as are pending; and they end quiet, or every one of them delivered. */
  lemma {:induction false} FrozenDeliveries(history: seq<Word>, p: Poll, os: seq<Outcome>)
    requires FrozenRun(history, p, os) && |Pending(p)| <= DEPTH
    ensures var d := Deliveries(os);
      && |d| <= |Pending(p)| && Indices(d) <= Pending(p) && DistinctIndices(d)
      && (Quiet(history + d, p) || |d| == |os|)
  {
    if os != [] {
      hide Reference, Indices, Pending, Quiet, DistinctIndices;
      var n := |os| - 1;
      FrozenPrefix(history, p, os, n);
      FrozenDeliveries(history, p, os[..n]);
      var d0 := Deliveries(os[..n]);
      IdleIsQuiet(history + d0, p, os[n]);
      if os[n].Deliver? {
        NextDelivery(history, p, d0, os[n].signal);
        IndicesSize(d0 + [os[n].signal]);
        SubsetSize(Indices(d0 + [os[n].signal]), Pending(p));
      }
    } else {
      IndicesSize([]);
    }
  }

  /** As many distinct pending indices as there are pending indices: all of them, and all recent. */
  lemma AllDelivered(history: seq<Word>, p: Poll, d: seq<Word>)
    requires |Pending(p)| <= |d| <= DEPTH && DistinctIndices(d) && Indices(d) <= Pending(p)
    ensures Quiet(history + d, p)
  {
    IndicesSize(d);
    SubsetSize(Indices(d), Pending(p));
    forall k | k in Pending(p) ensures Recent(history + d, k) {
      var i :| 0 <= i < |d| && Index(d[i]) == k;
      assert Index((history + d)[|history| + i]) == k;
    }
  }

  /** Frozen slots with at most eight pending indices: at most that many further fetches, no index
      twice; after that many polls every pending index is among the last eight deliveries, and none of the
      polls that follow delivers. */
  lemma {:induction false} FrozenSettles(history: seq<Word>, p: Poll, os: seq<Outcome>)
    requires FrozenRun(history, p, os) && |Pending(p)| <= DEPTH
    ensures |Deliveries(os)| <= |Pending(p)| && DistinctIndices(Deliveries(os))
    ensures forall t :: |Pending(p)| <= t < |os| ==> os[t].Idle?
    ensures |Pending(p)| <= |os| ==> Quiet(history + Deliveries(os), p)
  {
    hide Reference, Indices, Pending, Quiet, DistinctIndices, Deliveries;
    FrozenDeliveries(history, p, os);
    forall t | |Pending(p)| <= t < |os| ensures os[t].Idle? {
      FrozenPrefix(history, p, os, t);
      FrozenDeliveries(history, p, os[..t]);
      IdleIsQuiet(history + Deliveries(os[..t]), p, os[t]);
      if |Deliveries(os[..t])| == t {
        AllDelivered(history, p, Deliveries(os[..t]));
      }
    }
    if |Pending(p)| <= |os| && |Deliveries(os)| == |os| {
      AllDelivered(history, p, Deliveries(os));
    }
  }

  /** With nine or more pending indices no poll of the frozen slots is ever idle. */
  lemma FrozenThrashes(history: seq<Word>, p: Poll, o: Outcome)
    requires Reference(history, p, o) && |Pending(p)| > DEPTH
    ensures o.Deliver?
  {
    IdleIsQuiet(history, p, o);
    if Quiet(history, p) {
      var last := if |history| <= DEPTH then history else history[|history| - DEPTH..];
      forall k | k in Pending(p) ensures k in Indices(last) {
        var i :| 0 <= i < |history| && |history| - DEPTH <= i && Index(history[i]) == k;
        assert Index(last[i - (|history| - |last|)]) == k;
      }
      IndicesSize(last);
      SubsetSize(Pending(p), Indices(last));
      assert false;
    }
  }

  lemma {:induction false} DeliveriesConcat(a: seq<Outcome>, b: seq<Outcome>)
    ensures Deliveries(a + b) == Deliveries(a) + Deliveries(b)
  {
    if b == [] {
      assert a + b == a;
    } else {
      var n := |b| - 1;
      DeliveriesConcat(a, b[..n]);
      assert (a + b)[..|a| + n] == a + b[..n];
    }
  }

  /** Outcomes of n further polls of the same slots, after the polls of any run. */
  function Late(polls: seq<Poll>, p: Poll, n: nat): (os: seq<Outcome>)
    ensures |os| == n
  {
    Polling(START, polls + Repeat(p, n)).1[|polls|..]
  }

  function Repeat(p: Poll, n: nat): (ps: seq<Poll>)
    ensures |ps| == n && forall t :: 0 <= t < n ==> ps[t] == p
  {
    seq(n, _ => p)
  }

  lemma {:induction false} LateIsFrozen(polls: seq<Poll>, p: Poll, n: nat)
    ensures FrozenRun(Deliveries(Polling(START, polls).1), p, Late(polls, p, n))
  {
    hide Polling, Deliveries, Reference;
    var history := Deliveries(Polling(START, polls).1);
    var late := Late(polls, p, n);
    forall t | 0 <= t < n ensures Reference(history + Deliveries(late[..t]), p, late[t]) {
      var all := polls + Repeat(p, n);
      assert all[..|polls|] == polls;
      OutcomeAfter(all, |polls|, t);
    }
  }

  /** Outcome t after the first m polls, against the history those m polls left. */
  lemma {:induction false} OutcomeAfter(polls: seq<Poll>, m: nat, t: nat)
    requires m + t < |polls|
    ensures var late := Polling(START, polls).1[m..];
      Reference(Deliveries(Polling(START, polls[..m]).1) + Deliveries(late[..t]), polls[m + t], late[t])
  {
    hide Polling, Deliveries, Reference;
    OutcomeAt(polls, m + t);
    PollingPrefix(START, polls, m);
    var os := Polling(START, polls).1;
    DeliveriesConcat(os[..m], os[m..][..t]);
    assert os[..m] + os[m..][..t] == os[..m + t];
  }

  /** The state after the polls of any run and n more polls of the same slots. */
  function Settled(polls: seq<Poll>, p: Poll, n: nat): Fetch {
    Polling(START, polls + Repeat(p, n)).0
  }

  lemma {:induction false} QuietIsQueued(polls: seq<Poll>, p: Poll, n: nat)
    requires Quiet(Deliveries(Polling(START, polls).1) + Deliveries(Late(polls, p, n)), p)
    ensures forall k :: k in Pending(p) ==> Queued(Settled(polls, p, n).window, k)
  {
    hide Polling, Deliveries, Queued, Recent;
    var all := polls + Repeat(p, n);
    LoopHead(all);
    PollingPrefix(START, all, |polls|);
    assert all[..|polls|] == polls;
    var os := Polling(START, all).1;
    DeliveriesConcat(os[..|polls|], os[|polls|..]);
    assert os[..|polls|] + os[|polls|..] == os;
    forall k | k in Pending(p) ensures Queued(Settled(polls, p, n).window, k) {
      QueuedIsRecent(Settled(polls, p, n), Deliveries(os), k);
    }
  }

  /** What n polls of frozen slots do after any run: with at most eight pending indices at most that many
      fetches, none twice, idle from then on, and every pending index ends in the queue; with more, a
      fetch on every poll. */
  ghost predicate Settles(p: Poll, late: seq<Outcome>, window: seq<Word>) {
    && (|Pending(p)| <= DEPTH ==>
      && |Deliveries(late)| <= |Pending(p)|
      && DistinctIndices(Deliveries(late))
      && (forall t :: |Pending(p)| <= t < |late| ==> late[t].Idle?)
      && (|Pending(p)| <= |late| ==> forall k :: k in Pending(p) ==> Queued(window, k)))
    && (|Pending(p)| > DEPTH ==> forall t :: 0 <= t < |late| ==> late[t].Deliver?)
  }

  lemma {:induction false} FrozenLoop(polls: seq<Poll>, p: Poll, n: nat)
    ensures Settles(p, Late(polls, p, n), Settled(polls, p, n).window)
  {
    hide Polling, Deliveries, Reference, DistinctIndices, Pending, Late, Quiet, Settled, Queued;
    var late := Late(polls, p, n);
    var history := Deliveries(Polling(START, polls).1);
    LateIsFrozen(polls, p, n);
    if |Pending(p)| <= DEPTH {
      FrozenSettles(history, p, late);
      if |Pending(p)| <= n { QuietIsQueued(polls, p, n); }
    } else {
      forall t | 0 <= t < n ensures late[t].Deliver? {
        FrozenThrashes(history + Deliveries(late[..t]), p, late[t]);
      }
    }
  }
}

/** The tuning loop: try every combination of the search space and keep the fastest. */
module Tuning {
  import opened Registers
  import opened SearchSpaces

  /** The values of a combination. */
  function ValuesOf(ps: seq<Param>, ds: seq<nat>): (vs: seq<int>)
    requires AllWell(ps) && Digits(ds, Nums(ps))
    ensures |vs| == |ps| && forall i :: 0 <= i < |ps| ==> vs[i] == ps[i].valueArray[ds[i]]
  {
    seq(|ps|, i requires 0 <= i < |ps| => ps[i].valueArray[ds[i]])
  }

  /** The digits of combination k. */
  function Combination(ps: seq<Param>, k: nat): (ds: seq<nat>)
    requires AllWell(ps) && k < Combinations(Nums(ps))
    ensures Digits(ds, Nums(ps))
  {
    ValueOfDigits(k, Nums(ps));
    DigitsOf(k, Nums(ps))
  }

  /** What is measured for combination k; None when no kernel could be generated for it. */
  function TimeOf(ps: seq<Param>, elapsed: seq<int> -> Option<real>, k: nat): Option<real>
    requires AllWell(ps) && k < Combinations(Nums(ps))
  {
    elapsed(ValuesOf(ps, Combination(ps, k)))
  }

  predicate Improves(best: real, t: real) {
    best < 0.0 || best > t
  }

  /** The best time, and the combination recorded, after the first n combinations, when the best time of
      the problem so far was `start`. */
  function BestOf(ps: seq<Param>, elapsed: seq<int> -> Option<real>, start: real, n: nat): (r: (real, Option<nat>))
    requires AllWell(ps) && n <= Combinations(Nums(ps))
    ensures r.1.Some? ==> r.1.value < n
  {
    if n == 0 then (start, None)
    else
      var (best, b) := BestOf(ps, elapsed, start, n - 1);
      match TimeOf(ps, elapsed, n - 1)
      case Some(t) => if Improves(best, t) then (t, Some(n - 1)) else (best, b)
      case None => (best, b)
  }

  ghost predicate NotNegative(ps: seq<Param>, elapsed: seq<int> -> Option<real>, n: nat)
    requires AllWell(ps) && n <= Combinations(Nums(ps))
  {
    forall k :: 0 <= k < n && TimeOf(ps, elapsed, k).Some? ==> TimeOf(ps, elapsed, k).value >= 0.0
  }

  /** Combination k beats the best time the search started with. */
  ghost predicate Beats(ps: seq<Param>, elapsed: seq<int> -> Option<real>, start: real, k: nat)
    requires AllWell(ps) && k < Combinations(Nums(ps))
  {
    TimeOf(ps, elapsed, k).Some? && Improves(start, TimeOf(ps, elapsed, k).value)
  }

  /** Combination b is the first of the smallest times, and t is that time. */
  ghost predicate FirstMinimum(ps: seq<Param>, elapsed: seq<int> -> Option<real>, n: nat, t: real, b: nat)
    requires AllWell(ps) && n <= Combinations(Nums(ps))
  {
    && b < n && TimeOf(ps, elapsed, b) == Some(t)
    && forall k :: 0 <= k < n && TimeOf(ps, elapsed, k).Some? ==>
      t <= TimeOf(ps, elapsed, k).value && (k < b ==> t < TimeOf(ps, elapsed, k).value)
  }

  /** With times that are not negative a combination is recorded exactly when some combination beats the
      best time so far, and then it is the first of the fastest; otherwise the best time stays. */
  lemma {:induction false} BestIsFirstMinimum(ps: seq<Param>, elapsed: seq<int> -> Option<real>, start: real, n: nat)
    requires AllWell(ps) && n <= Combinations(Nums(ps)) && NotNegative(ps, elapsed, n)
    ensures var (t, b) := BestOf(ps, elapsed, start, n);
      && (b.Some? <==> exists k :: 0 <= k < n && Beats(ps, elapsed, start, k))
      && (b.Some? ==> FirstMinimum(ps, elapsed, n, t, b.value))
      && (b.None? ==> t == start)
  {
    hide TimeOf;
    if n > 0 {
      BestIsFirstMinimum(ps, elapsed, start, n - 1);
      var (best, b) := BestOf(ps, elapsed, start, n - 1);
      assert Beats(ps, elapsed, start, n - 1) && b.None? ==> Improves(best, TimeOf(ps, elapsed, n - 1).value);
      if b.Some? {
        var k :| 0 <= k < n - 1 && Beats(ps, elapsed, start, k);
        assert 0 <= k < n && Beats(ps, elapsed, start, k);
      } else if BestOf(ps, elapsed, start, n).1.Some? {
        var k := n - 1;
        assert 0 <= k < n && Beats(ps, elapsed, start, k);
        assert forall j :: 0 <= j < k && TimeOf(ps, elapsed, j).Some? ==> !Beats(ps, elapsed, start, j);
      } else {
        assert !Beats(ps, elapsed, start, n - 1);
        assert forall k :: 0 <= k < n && Beats(ps, elapsed, start, k) ==> k < n - 1;
      }
    }
  }

  /** In the first search of a problem the best time is negative: then nothing is recorded exactly when no
      kernel could be generated for any combination. */
  lemma {:induction false} FirstSearchRecords(ps: seq<Param>, elapsed: seq<int> -> Option<real>, n: nat)
    requires AllWell(ps) && n <= Combinations(Nums(ps)) && NotNegative(ps, elapsed, n)
    ensures BestOf(ps, elapsed, -1.0, n).1.None? <==> forall k :: 0 <= k < n ==> TimeOf(ps, elapsed, k).None?
  {
    hide TimeOf, BestOf;
    BestIsFirstMinimum(ps, elapsed, -1.0, n);
    if k :| 0 <= k < n && TimeOf(ps, elapsed, k).Some? { assert Beats(ps, elapsed, -1.0, k); }
  }

  /** So no combination of the whole product is faster than the best time, which is that of the recorded
      combination if there is one. */
  lemma {:induction false} BestOverProduct(ps: seq<Param>, elapsed: seq<int> -> Option<real>, start: real, ds: seq<nat>)
    requires AllWell(ps) && Digits(ds, Nums(ps)) && NotNegative(ps, elapsed, Combinations(Nums(ps)))
    requires elapsed(ValuesOf(ps, ds)).Some?
    ensures var (t, b) := BestOf(ps, elapsed, start, Combinations(Nums(ps)));
      0.0 <= t <= elapsed(ValuesOf(ps, ds)).value && (b.Some? ==> TimeOf(ps, elapsed, b.value) == Some(t))
  {
    hide BestOf, Value, Combinations, ValuesOf;
    var k := Value(ds, Nums(ps));
    ValueBound(ds, Nums(ps));
    DigitsOfValue(ds, Nums(ps));
    BestIsFirstMinimum(ps, elapsed, start, Combinations(Nums(ps)));
    assert TimeOf(ps, elapsed, k) == elapsed(ValuesOf(ps, ds));
    assert Beats(ps, elapsed, start, k) <==> Improves(start, elapsed(ValuesOf(ps, ds)).value);
  }

  /** A parameter that shows digit d and has recorded digit b. */
  function Marked(p: Param, d: nat, b: Option<nat>): Param
    requires d < |p.valueArray| && (b.Some? ==> b.value < |p.valueArray|)
  {
    var q := Turned(p, d);
    if b.Some? then q.(bestIdx := b.value, bestValue := p.valueArray[b.value]) else q
  }

  function Digit(ps: seq<Param>, b: Option<nat>, i: nat): (d: Option<nat>)
    requires AllWell(ps) && i < |ps| && (b.Some? ==> b.value < Combinations(Nums(ps)))
    ensures d.Some? ==> d.value < |ps[i].valueArray|
  {
    if b.Some? then Some(Combination(ps, b.value)[i]) else None
  }

  /** The parameters show ds and have recorded combination b. */
  ghost predicate Board(ps: seq<Param>, now: seq<Param>, ds: seq<nat>, b: Option<nat>)
    requires AllWell(ps)
  {
    && Digits(ds, Nums(ps)) && (b.Some? ==> b.value < Combinations(Nums(ps)))
    && |now| == |ps| && forall i :: 0 <= i < |ps| ==> now[i] == Marked(ps[i], ds[i], Digit(ps, b, i))
  }

  lemma BoardFacts(ps: seq<Param>, now: seq<Param>, ds: seq<nat>, b: Option<nat>)
    requires AllWell(ps) && Board(ps, now, ds, b)
    ensures AllWell(now) && Nums(now) == Nums(ps) && Idxs(now) == ds
    ensures seq(|now|, i requires 0 <= i < |now| => now[i].currValue) == ValuesOf(ps, ds)
  {
    hide Digit;
    forall i | 0 <= i < |ps| ensures Well(now[i]) && now[i].valueNum == ps[i].valueNum && now[i].currIdx == ds[i] {
      assert now[i] == Marked(ps[i], ds[i], Digit(ps, b, i));
    }
  }

  lemma BoardRecords(ps: seq<Param>, before: seq<Param>, now: seq<Param>, k: nat, b: Option<nat>)
    requires AllWell(ps) && k < Combinations(Nums(ps)) && Board(ps, before, Combination(ps, k), b)
    requires |now| == |before| && forall i :: 0 <= i < |now| ==> now[i] == Recorded(before[i])
    ensures Board(ps, now, Combination(ps, k), Some(k))
  {
  }

  lemma BoardTurns(ps: seq<Param>, before: seq<Param>, ds: seq<nat>, b: Option<nat>, es: seq<nat>)
    requires AllWell(ps) && Board(ps, before, ds, b) && Digits(es, Nums(ps)) && AllWell(before) &&
      Nums(before) == Nums(ps)
    ensures Board(ps, Showing(before, es), es, b)
  {
    hide Digit;
    var now := Showing(before, es);
    forall i | 0 <= i < |ps| ensures now[i] == Marked(ps[i], es[i], Digit(ps, b, i)) {
      assert before[i] == Marked(ps[i], ds[i], Digit(ps, b, i));
    }
  }

  /** A call on combination k: combination k + 1, or the end. */
  lemma {:induction false} NextCombination(ps: seq<Param>, k: nat, before: seq<Param>, b: Option<nat>,
                                        junk: nat -> bool, after: seq<Param>, ok: bool)
    requires AllWell(ps) && k < Combinations(Nums(ps)) && Board(ps, before, Combination(ps, k), b)
    requires Harmless(Nums(ps), junk) && AllWell(before) && Walked(before, 0, true, junk, after, ok)
    ensures ok <==> k + 1 < Combinations(Nums(ps))
    ensures ok ==> Board(ps, after, Combination(ps, k + 1), b)
    ensures !ok ==> Board(ps, after, LastDigits(Nums(ps)), b)
  {
    hide Walk, Board, Increment, Value, Combinations, DigitsOf, Harmless;
    var ns, ds := Nums(ps), Combination(ps, k);
    BoardFacts(ps, before, ds, b);
    HarmlessWalk(ds, ns, junk);
    IncrementAddsOne(ds, ns);
    ValueOfDigits(k, ns);
    var es := Increment(ds, ns).0;
    BoardTurns(ps, before, ds, b, es);
    if ok {
      DigitsOfValue(es, ns);
    } else {
      assert es == LastDigits(ns);
    }
  }

  /** All digits 0 but the last, which is at its largest. */
  function LastDigits(ns: seq<nat>): seq<nat>
    requires |ns| >= 1 && forall i :: 0 <= i < |ns| ==> ns[i] >= 1
  {
    seq(|ns|, i requires 0 <= i < |ns| => if i == |ns| - 1 then ns[i] - 1 else 0)
  }

  /** Try the combination at hand, record it when it is faster than everything this problem has seen, and
      go to the next, until there is none: every combination is tried once, and the search space ends with
      its cursor at rest, all digits but the last at 0 and the last at its largest. Call n of the walk finds
      junks(n) in its unset variables: anything, if the space is narrow. */
  method RunOneSolutionConfig(space: SearchSpace, elapsed: seq<int> -> Option<real>, bestSoFar: real,
                              junks: nat -> nat -> bool)
    returns (problemBestTime: real)
    requires forall n :: Harmless(Nums(space.searchParams), junks(n))
    requires space.Valid() && space.AtRest() && Idxs(space.searchParams) == Zeros(|space.searchParams|)
    modifies space
    ensures space.Valid() && space.AtRest()
    ensures var ps := old(space.searchParams);
      var (t, b) := BestOf(ps, elapsed, bestSoFar, Combinations(Nums(ps)));
      problemBestTime == t && Board(ps, space.searchParams, LastDigits(Nums(ps)), b)
  {
    hide Walk, Board, Combinations, DigitsOf, TimeOf, BestOf, ValuesOf, Walked, Zeros, Harmless;
    ghost var ps := space.searchParams;
    var k := 0;
    ghost var b: Option<nat> := None;
    problemBestTime := bestSoFar;
    StartsAtZero(ps, elapsed, bestSoFar);
    while true
      invariant space.Valid() && space.AtRest() && AllWell(ps) && k < Combinations(Nums(ps))
      invariant BestOf(ps, elapsed, bestSoFar, k) == (problemBestTime, b)
      invariant Board(ps, space.searchParams, Combination(ps, k), b)
      decreases Combinations(Nums(ps)) - k
    {
      BoardFacts(ps, space.searchParams, Combination(ps, k), b);
      var params := space.searchParams;
      var t := elapsed(seq(|params|, i requires 0 <= i < |params| => params[i].currValue));
      BestNext(ps, elapsed, bestSoFar, k);
      if t.Some? && (problemBestTime < 0.0 || problemBestTime > t.value) {
        problemBestTime := t.value;
        space.RecordBestComb();
        BoardRecords(ps, params, space.searchParams, k, b);
        b := Some(k);
        BoardFacts(ps, space.searchParams, Combination(ps, k), b);
      }
      ghost var before := space.searchParams;
      var ok := space.GetNexComb(junks(k));
      NextCombination(ps, k, before, b, junks(k), space.searchParams, ok);
      if !ok {
        return;
      }
      k := k + 1;
    }
  }

  lemma BestNext(ps: seq<Param>, elapsed: seq<int> -> Option<real>, start: real, k: nat)
    requires AllWell(ps) && k < Combinations(Nums(ps))
    ensures var (best, b) := BestOf(ps, elapsed, start, k);
      var t := elapsed(ValuesOf(ps, Combination(ps, k)));
      BestOf(ps, elapsed, start, k + 1) ==
        if t.Some? && (best < 0.0 || best > t.value) then (t.value, Some(k)) else (best, b)
  {
  }

  lemma {:induction false} StartsAtZero(ps: seq<Param>, elapsed: seq<int> -> Option<real>, start: real)
    requires AllWell(ps) && Idxs(ps) == Zeros(|ps|)
    ensures 0 < Combinations(Nums(ps)) && Board(ps, ps, Combination(ps, 0), None) &&
      BestOf(ps, elapsed, start, 0) == (start, None)
  {
    hide Combinations, DigitsOf, Value;
    var ns := Nums(ps);
    ValueBound(Idxs(ps), ns);
    ZeroValue(ns);
    DigitsOfValue(Idxs(ps), ns);
  }
}

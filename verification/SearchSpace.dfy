/** The tuning search: an odometer over the value lists of the parameters, walked recursively, and the
    loop that keeps the best combination. */
module SearchSpaces {
  import opened Words

  // ---------------------------------------------------------------------------------------------
  // The walk
  // ---------------------------------------------------------------------------------------------

  /** Digits within their radices. */
  predicate Digits(ds: seq<nat>, ns: seq<nat>) {
    |ds| == |ns| && |ds| >= 1 && forall i :: 0 <= i < |ds| ==> ds[i] < ns[i]
  }

  /** One call from position i on. `junk(i)` is what an unset local variable of the call at position i
      holds: it is read when the digit at i does not move. */
  function Walk(ds: seq<nat>, ns: seq<nat>, i: nat, move: bool, junk: nat -> bool): (seq<nat>, bool)
    requires |ds| == |ns| && i < |ds|
    decreases |ds| - i
  {
    if i == |ds| - 1 && move && ds[i] + 1 >= ns[i] then (ds, false)
    else
      var next := if move then ds[i] + 1 >= ns[i] else junk(i);
      var moved := if !move then ds else if ds[i] + 1 >= ns[i] then ds[i := 0] else ds[i := ds[i] + 1];
      if i == |ds| - 1 then (moved, true) else Walk(moved, ns, i + 1, next, junk)
  }

  /** What the call is meant to do: a digit that did not move does not make the next one move. */
  function NoJunk(): nat -> bool {
    i => false
  }

  /** One up in a mixed radix number, least digit first; at the largest number the last digit stays. */
  function Increment(ds: seq<nat>, ns: seq<nat>): (r: (seq<nat>, bool))
    requires |ds| == |ns| && |ds| >= 1
    ensures |r.0| == |ds|
    decreases |ds|
  {
    if ds[0] + 1 < ns[0] then ([ds[0] + 1] + ds[1..], true)
    else if |ds| == 1 then (ds, false)
    else
      var (t, ok) := Increment(ds[1..], ns[1..]);
      ([0] + t, ok)
  }

  lemma {:induction false} WalkRests(ds: seq<nat>, ns: seq<nat>, i: nat)
    requires |ds| == |ns| && i < |ds|
    ensures Walk(ds, ns, i, false, NoJunk()) == (ds, true)
    decreases |ds| - i
  {
    if i < |ds| - 1 { WalkRests(ds, ns, i + 1); }
  }

  lemma {:induction false} WalkIncrements(ds: seq<nat>, ns: seq<nat>, i: nat)
    requires |ds| == |ns| && i < |ds|
    ensures var (t, ok) := Increment(ds[i..], ns[i..]);
      Walk(ds, ns, i, true, NoJunk()) == (ds[..i] + t, ok)
    decreases |ds| - i
  {
    if ds[i] + 1 < ns[i] {
      var moved := ds[i := ds[i] + 1];
      if i < |ds| - 1 { WalkRests(moved, ns, i + 1); }
      assert moved == ds[..i] + ([ds[i] + 1] + ds[i + 1..]);
      assert ds[i..][1..] == ds[i + 1..];
    } else if i < |ds| - 1 {
      var moved := ds[i := 0];
      WalkIncrements(moved, ns, i + 1);
      assert moved[i + 1..] == ds[i..][1..] && ns[i + 1..] == ns[i..][1..];
      var t := Increment(ds[i + 1..], ns[i + 1..]).0;
      assert moved[..i + 1] + t == ds[..i] + ([0] + t);
    } else {
      assert ds[..i] + ds[i..] == ds;
    }
  }

  // ---------------------------------------------------------------------------------------------
  // The unset variable
  // ---------------------------------------------------------------------------------------------

  /** All digits but the last two are at their largest. */
  predicate Tight(ds: seq<nat>, ns: seq<nat>, i: nat)
    requires |ds| == |ns|
  {
    forall j :: i <= j < |ds| - 2 ==> ds[j] + 1 >= ns[j]
  }

  lemma {:induction false} WalkKeeps(ds: seq<nat>, ns: seq<nat>, i: nat, move: bool, junk: nat -> bool, j: nat)
    requires |ds| == |ns| && j < i < |ds|
    ensures var (t, _) := Walk(ds, ns, i, move, junk); |t| == |ds| && t[j] == ds[j]
    decreases |ds| - i
  {
    if i < |ds| - 1 && !(move && i == |ds| - 1) {
      var next := if move then ds[i] + 1 >= ns[i] else junk(i);
      var moved := if !move then ds else if ds[i] + 1 >= ns[i] then ds[i := 0] else ds[i := ds[i] + 1];
      WalkKeeps(moved, ns, i + 1, next, junk, j);
    }
  }

  lemma {:induction false} TightWalk(ds: seq<nat>, ns: seq<nat>, i: nat, junk: nat -> bool)
    requires |ds| == |ns| && i < |ds| && Tight(ds, ns, i)
    ensures Walk(ds, ns, i, true, junk) == Walk(ds, ns, i, true, NoJunk())
    decreases |ds| - i
  {
    if i < |ds| - 2 {
      TightWalk(ds[i := 0], ns, i + 1, junk);
    }
  }

  /** A walk that starts by moving a digit never ends where it started with success. */
  lemma {:induction false} MovingChanges(ds: seq<nat>, ns: seq<nat>, i: nat, junk: nat -> bool)
    requires Digits(ds, ns) && i < |ds|
    ensures Walk(ds, ns, i, true, junk) != (ds, true)
    decreases |ds| - i
  {
    if i < |ds| - 1 {
      var wrap := ds[i] + 1 >= ns[i];
      var moved := if wrap then ds[i := 0] else ds[i := ds[i] + 1];
      if moved[i] != ds[i] {
        WalkKeeps(moved, ns, i + 1, wrap, junk, i);
      } else {
        assert moved == ds;
        MovingChanges(ds, ns, i + 1, junk);
      }
    }
  }

  /** From the first digit that can move on. */
  lemma {:induction false} LooseWalk(ds: seq<nat>, ns: seq<nat>, i: nat)
    requires Digits(ds, ns) && i < |ds| && !Tight(ds, ns, i)
    ensures Walk(ds, ns, i, true, _ => true) != Walk(ds, ns, i, true, NoJunk())
    decreases |ds| - i
  {
    if ds[i] + 1 >= ns[i] {
      LooseWalk(ds[i := 0], ns, i + 1);
    } else {
      var moved := ds[i := ds[i] + 1];
      WalkRests(moved, ns, i + 1);
      MovingChanges(moved, ns, i + 2, _ => true);
    }
  }

  /** The call does what it is meant to do whatever the unset variable holds exactly when all digits but
      the last two are at their largest. */
  lemma JunkHarmless(ds: seq<nat>, ns: seq<nat>)
    requires Digits(ds, ns)
    ensures (forall junk: nat -> bool :: Walk(ds, ns, 0, true, junk) == Walk(ds, ns, 0, true, NoJunk())) <==>
      Tight(ds, ns, 0)
  {
    if Tight(ds, ns, 0) {
      forall junk: nat -> bool ensures Walk(ds, ns, 0, true, junk) == Walk(ds, ns, 0, true, NoJunk()) {
        TightWalk(ds, ns, 0, junk);
      }
    } else {
      LooseWalk(ds, ns, 0);
    }
  }

  // ---------------------------------------------------------------------------------------------
  // The odometer
  // ---------------------------------------------------------------------------------------------

  /** The number the digits stand for. */
  function Value(ds: seq<nat>, ns: seq<nat>): nat
    requires |ds| == |ns|
  {
    if ds == [] then 0 else ds[0] + Times(ns[0], Value(ds[1..], ns[1..]))
  }

  /** How many combinations there are. */
  function Combinations(ns: seq<nat>): nat {
    if ns == [] then 1 else Times(ns[0], Combinations(ns[1..]))
  }

  /** The combination with a number. */
  function DigitsOf(k: nat, ns: seq<nat>): (ds: seq<nat>)
    requires forall i :: 0 <= i < |ns| ==> ns[i] >= 1
    ensures |ds| == |ns|
  {
    if ns == [] then [] else [k % ns[0]] + DigitsOf(k / ns[0], ns[1..])
  }

  lemma {:induction false} ValueBound(ds: seq<nat>, ns: seq<nat>)
    requires |ds| == |ns| && forall i :: 0 <= i < |ds| ==> ds[i] < ns[i]
    ensures Value(ds, ns) < Combinations(ns)
  {
    hide Times;
    if ds != [] {
      ValueBound(ds[1..], ns[1..]);
      var v, c := Value(ds[1..], ns[1..]), Combinations(ns[1..]);
      TimesOrder(ns[0], v, c);
    }
  }

  lemma TimesOne(n: nat)
    ensures Times(n, 1) == n && Times(n, 0) == 0
  {
  }

  lemma TimesNext(n: nat, v: nat)
    ensures Times(n, v + 1) == Times(n, v) + n
  {
  }

  /** A success adds exactly one; a failure happens exactly at the largest number, and then all digits but
      the last are 0. */
  lemma {:induction false} IncrementAddsOne(ds: seq<nat>, ns: seq<nat>)
    requires Digits(ds, ns)
    ensures var (t, ok) := Increment(ds, ns);
      && Digits(t, ns)
      && (ok ==> Value(t, ns) == Value(ds, ns) + 1)
      && (ok <==> Value(ds, ns) + 1 < Combinations(ns))
      && (!ok ==> t[|t| - 1] == ns[|t| - 1] - 1 && forall i :: 0 <= i < |t| - 1 ==> t[i] == 0)
    decreases |ds|
  {
    hide Times, Value, Combinations;
    var (t, ok) := Increment(ds, ns);
    Unfold(ds, ns);
    Unfold(t, ns);
    if ds[0] + 1 < ns[0] {
      assert t[1..] == ds[1..];
      ValueBound(t, ns);
    } else if |ds| == 1 {
      Unfold(ds[1..], ns[1..]);
      TimesOne(ns[0]);
    } else {
      IncrementAddsOne(ds[1..], ns[1..]);
      var u := Increment(ds[1..], ns[1..]).0;
      assert t[1..] == u;
      ValueBound(ds[1..], ns[1..]);
      Carry(ns[0], Value(ds[1..], ns[1..]), Combinations(ns[1..]));
    }
  }

  lemma {:induction false} Carry(n: nat, v: nat, c: nat)
    requires n >= 1 && v < c
    ensures Times(n, v + 1) == n - 1 + Times(n, v) + 1
    ensures v + 1 < c <==> n - 1 + Times(n, v) + 1 < Times(n, c)
  {
    TimesNext(n, v);
    if v + 1 < c { TimesOrder(n, v + 1, c); }
  }

  lemma Unfold(ds: seq<nat>, ns: seq<nat>)
    requires |ds| == |ns|
    ensures ds != [] ==> Value(ds, ns) == ds[0] + Times(ns[0], Value(ds[1..], ns[1..]))
    ensures ds != [] ==> Combinations(ns) == Times(ns[0], Combinations(ns[1..]))
    ensures ds == [] ==> Value(ds, ns) == 0 && Combinations(ns) == 1
  {
  }

  lemma {:induction false} DigitsOfValue(ds: seq<nat>, ns: seq<nat>)
    requires |ds| == |ns| && forall i :: 0 <= i < |ds| ==> ds[i] < ns[i]
    ensures DigitsOf(Value(ds, ns), ns) == ds
  {
    if ds != [] {
      DigitsOfValue(ds[1..], ns[1..]);
      var v, n := Value(ds[1..], ns[1..]), ns[0];
      Quotient(ds[0], n, v);
    }
  }

  lemma {:induction false} Quotient(d: nat, n: nat, v: nat)
    requires d < n
    ensures (d + Times(n, v)) % n == d && (d + Times(n, v)) / n == v
  {
    DivIs(d + n * v, n, v, d);
  }

  lemma {:induction false} ValueOfDigits(k: nat, ns: seq<nat>)
    requires (forall i :: 0 <= i < |ns| ==> ns[i] >= 1) && k < Combinations(ns)
    ensures var ds := DigitsOf(k, ns); (forall i :: 0 <= i < |ds| ==> ds[i] < ns[i]) && Value(ds, ns) == k
  {
    if ns != [] {
      var n, c := ns[0], Combinations(ns[1..]);
      DivParts(k, n);
      hide Times;
      if k / n >= c { MulAtLeast(n, c, k / n); }
      ValueOfDigits(k / n, ns[1..]);
      assert DigitsOf(k, ns)[1..] == DigitsOf(k / n, ns[1..]);
    }
  }

  lemma MulAtLeast(n: nat, c: nat, q: nat)
    requires c <= q
    ensures Times(n, c) <= Times(n, q)
  {
    if c < q { MulOrder(n, c, q); }
  }

  /** All parameters but the last two have one value only. */
  predicate Narrow(ns: seq<nat>) {
    forall j :: 0 <= j < |ns| - 2 ==> ns[j] == 1
  }

  /** What the unset variables of a call may hold: anything in a narrow space, false in any other. */
  ghost predicate Harmless(ns: seq<nat>, junk: nat -> bool) {
    Narrow(ns) || forall i: nat :: i < |ns| ==> !junk(i)
  }

  lemma {:induction false} QuietWalk(ds: seq<nat>, ns: seq<nat>, i: nat, move: bool, junk: nat -> bool)
    requires |ds| == |ns| && i < |ds| && forall j: nat :: j < |ns| ==> !junk(j)
    ensures Walk(ds, ns, i, move, junk) == Walk(ds, ns, i, move, NoJunk())
    decreases |ds| - i
  {
    if i < |ds| - 1 {
      var next := if move then ds[i] + 1 >= ns[i] else false;
      QuietWalk(if !move then ds else if ds[i] + 1 >= ns[i] then ds[i := 0] else ds[i := ds[i] + 1], ns, i + 1, next,
                junk);
    }
  }

  lemma {:induction false} HarmlessWalk(ds: seq<nat>, ns: seq<nat>, junk: nat -> bool)
    requires Digits(ds, ns) && Harmless(ns, junk)
    ensures Walk(ds, ns, 0, true, junk) == Increment(ds, ns)
  {
    if Narrow(ns) { TightWalk(ds, ns, 0, junk); } else { QuietWalk(ds, ns, 0, true, junk); }
    WalkIncrements(ds, ns, 0);
    assert ds[0..] == ds && ns[0..] == ns;
    assert ds[..0] + Increment(ds, ns).0 == Increment(ds, ns).0;
  }

  /** The digits after k calls, and the result of the last: call n finds junks(n) in its unset variables. */
  function Calls(ds: seq<nat>, ns: seq<nat>, junks: nat -> nat -> bool, k: nat): (r: (seq<nat>, bool))
    requires Digits(ds, ns)
    ensures Digits(r.0, ns)
  {
    if k == 0 then (ds, true)
    else
      var t := Calls(ds, ns, junks, k - 1).0;
      WalkDigits(t, ns, 0, true, junks(k - 1));
      Walk(t, ns, 0, true, junks(k - 1))
  }

  lemma {:induction false} WalkDigits(ds: seq<nat>, ns: seq<nat>, i: nat, move: bool, junk: nat -> bool)
    requires Digits(ds, ns) && i < |ds|
    ensures Digits(Walk(ds, ns, i, move, junk).0, ns)
    decreases |ds| - i
  {
    if !(i == |ds| - 1 && move && ds[i] + 1 >= ns[i]) && i < |ds| - 1 {
      var next := if move then ds[i] + 1 >= ns[i] else junk(i);
      var moved := if !move then ds else if ds[i] + 1 >= ns[i] then ds[i := 0] else ds[i := ds[i] + 1];
      WalkDigits(moved, ns, i + 1, next, junk);
    }
  }

  function Zeros(n: nat): (z: seq<nat>)
    ensures |z| == n && forall i :: 0 <= i < n ==> z[i] == 0
  {
    seq(n, _ => 0)
  }

  lemma {:induction false} ZeroValue(ns: seq<nat>)
    ensures Value(Zeros(|ns|), ns) == 0
  {
    if ns != [] {
      assert Zeros(|ns|)[1..] == Zeros(|ns[1..]|);
      ZeroValue(ns[1..]);
    }
  }

  lemma {:induction false} SeesAll(z: seq<nat>, ns: seq<nat>, junks: nat -> nat -> bool, k: nat)
    requires Digits(z, ns) && Value(z, ns) == 0 && k <= Combinations(ns) && Combinations(ns) > 0
    requires forall n :: Harmless(ns, junks(n))
    ensures Calls(z, ns, junks, k).1 <==> k < Combinations(ns)
    ensures k < Combinations(ns) ==> Value(Calls(z, ns, junks, k).0, ns) == k
  {
    hide Increment, Value, Combinations, Digits, Harmless, Walk;
    if k > 0 {
      SeesAll(z, ns, junks, k - 1);
      HarmlessWalk(Calls(z, ns, junks, k - 1).0, ns, junks(k - 1));
      IncrementAddsOne(Calls(z, ns, junks, k - 1).0, ns);
    }
  }

  /** The calls of a whole search go through the combinations in their order: call k succeeds exactly for
      k below their number, and shows the combination with number k. */
  ghost predicate InOrder(ns: seq<nat>, junks: nat -> nat -> bool)
    requires Digits(Zeros(|ns|), ns)
  {
    forall k: nat :: k <= Combinations(ns) ==>
      (Calls(Zeros(|ns|), ns, junks, k).1 <==> k < Combinations(ns)) &&
      (k < Combinations(ns) ==> Calls(Zeros(|ns|), ns, junks, k).0 == DigitsOf(k, ns))
  }

  /** From the all-zero combination. */
  lemma {:induction false} SeesEverything(ns: seq<nat>, junks: nat -> nat -> bool)
    requires Digits(Zeros(|ns|), ns) && forall n :: Harmless(ns, junks(n))
    ensures InOrder(ns, junks)
  {
    hide Calls, Value, Combinations, Zeros, DigitsOf, Harmless;
    var z := Zeros(|ns|);
    ValueBound(z, ns);
    ZeroValue(ns);
    forall k: nat | k <= Combinations(ns)
      ensures Calls(z, ns, junks, k).1 <==> k < Combinations(ns)
      ensures k < Combinations(ns) ==> Calls(z, ns, junks, k).0 == DigitsOf(k, ns)
    {
      SeesAll(z, ns, junks, k);
      DigitsOfValue(Calls(z, ns, junks, k).0, ns);
    }
  }

  /** So every combination is seen, at one call only. */
  lemma SeenOnce(ns: seq<nat>, junks: nat -> nat -> bool, ds: seq<nat>, k: nat)
    requires Digits(Zeros(|ns|), ns) && Digits(ds, ns) && k < Combinations(ns) && forall n :: Harmless(ns, junks(n))
    ensures Value(ds, ns) < Combinations(ns)
    ensures Calls(Zeros(|ns|), ns, junks, k).0 == ds <==> k == Value(ds, ns)
  {
    hide Calls, Value, Combinations, Zeros, DigitsOf, Harmless;
    ValueBound(ds, ns);
    SeesEverything(ns, junks);
    DigitsOfValue(ds, ns);
    ValueOfDigits(k, ns);
  }

  /** A space that is not narrow: with the variables reading true the first call goes wrong. */
  lemma {:induction false} WideGoesWrong(ns: seq<nat>)
    requires Digits(Zeros(|ns|), ns) && !Narrow(ns)
    ensures !InOrder(ns, _ => _ => true)
  {
    hide Value, Combinations, DigitsOf, Zeros, Walk, Increment;
    var z := Zeros(|ns|);
    var loud: nat -> nat -> bool := _ => _ => true;
    assert !Tight(z, ns, 0) by { var j :| 0 <= j < |ns| - 2 && ns[j] != 1; }
    LooseWalk(z, ns, 0);
    var t := Increment(z, ns).0;
    HarmlessWalk(z, ns, NoJunk());
    ZeroValue(ns);
    IncrementAddsOne(z, ns);
    TwoOrMore(ns);
    DigitsOfValue(t, ns);
    ValueBound(z, ns);
    assert Calls(z, ns, loud, 0) == (z, true);
    assert Calls(z, ns, loud, 1) == Walk(z, ns, 0, true, _ => true);
  }

  lemma TwoOrMore(ns: seq<nat>)
    requires Digits(Zeros(|ns|), ns) && !Narrow(ns)
    ensures Combinations(ns) > 1
  {
    hide Value, Combinations, DigitsOf, Zeros;
    var j :| 0 <= j < |ns| - 2 && ns[j] != 1;
    var z := Zeros(|ns|);
    var ds := z[j := 1];
    ZeroValue(ns);
    ValueBound(ds, ns);
    DigitsOfValue(z, ns);
    DigitsOfValue(ds, ns);
  }

  /** The whole search goes through the combinations in order, whatever the unset variables hold at each
      call, exactly when all parameters but the last two have one value only. */
  lemma {:induction false} SearchIffNarrow(ns: seq<nat>)
    requires Digits(Zeros(|ns|), ns)
    ensures (forall junks: nat -> nat -> bool :: InOrder(ns, junks)) <==> Narrow(ns)
  {
    hide InOrder, Digits, Zeros;
    if Narrow(ns) {
      forall junks: nat -> nat -> bool ensures InOrder(ns, junks) { SeesEverything(ns, junks); }
    } else {
      WideGoesWrong(ns);
    }
  }

  // ---------------------------------------------------------------------------------------------
  // The search space
  // ---------------------------------------------------------------------------------------------

  datatype Param = Param(name: string, valueArray: seq<int>, minValue: int, maxValue: int, step: int,
                         currIdx: nat, currValue: int, bestIdx: int, bestValue: int, valueNum: nat)

  predicate Well(p: Param) {
    1 <= |p.valueArray| == p.valueNum && p.currIdx < p.valueNum && p.currValue == p.valueArray[p.currIdx]
  }

  predicate AllWell(ps: seq<Param>) {
    |ps| >= 1 && forall i :: 0 <= i < |ps| ==> Well(ps[i])
  }

  function Idxs(ps: seq<Param>): (ds: seq<nat>)
    ensures |ds| == |ps| && forall i :: 0 <= i < |ps| ==> ds[i] == ps[i].currIdx
  {
    seq(|ps|, i requires 0 <= i < |ps| => ps[i].currIdx)
  }

  function Nums(ps: seq<Param>): (ns: seq<nat>)
    ensures |ns| == |ps| && forall i :: 0 <= i < |ps| ==> ns[i] == ps[i].valueNum
  {
    seq(|ps|, i requires 0 <= i < |ps| => ps[i].valueNum)
  }

  function Turned(p: Param, d: nat): Param
    requires d < |p.valueArray|
  {
    p.(currIdx := d, currValue := p.valueArray[d])
  }

  /** The parameters with these digits: index and value always go together. */
  function Showing(ps: seq<Param>, ds: seq<nat>): (r: seq<Param>)
    requires AllWell(ps) && Digits(ds, Nums(ps))
    ensures |r| == |ps| && forall i :: 0 <= i < |ps| ==> r[i] == Turned(ps[i], ds[i])
  {
    seq(|ps|, i requires 0 <= i < |ps| => Turned(ps[i], ds[i]))
  }

  /** The digits of the walk, and its result. */
  ghost predicate Walked(before: seq<Param>, i: nat, move: bool, junk: nat -> bool, after: seq<Param>, ok: bool)
    requires AllWell(before) && i < |before|
  {
    WalkDigits(Idxs(before), Nums(before), i, move, junk);
    var (ds, r) := Walk(Idxs(before), Nums(before), i, move, junk);
    ok == r && after == Showing(before, ds)
  }

  lemma WalkedOn(ps: seq<Param>, i: nat, move: bool, junk: nat -> bool, moved: seq<Param>, after: seq<Param>, ok: bool)
    requires AllWell(ps) && i + 1 < |ps|
    requires moved == if !move then ps
      else ps[i := Turned(ps[i], if ps[i].currIdx + 1 >= ps[i].valueNum then 0 else ps[i].currIdx + 1)]
    requires AllWell(moved) &&
      Walked(moved, i + 1, if move then ps[i].currIdx + 1 >= ps[i].valueNum else junk(i), junk, after, ok)
    ensures Walked(ps, i, move, junk, after, ok)
  {
    hide Walk;
    WalkDigits(Idxs(ps), Nums(ps), i, move, junk);
    var ds := Idxs(ps);
    assert Nums(moved) == Nums(ps);
    assert Idxs(moved) == if !move then ds else if ds[i] + 1 >= Nums(ps)[i] then ds[i := 0] else ds[i := ds[i] + 1];
    WalkNext(ds, Nums(ps), i, move, junk);
  }

  lemma WalkNext(ds: seq<nat>, ns: seq<nat>, i: nat, move: bool, junk: nat -> bool)
    requires |ds| == |ns| && i + 1 < |ds|
    ensures Walk(ds, ns, i, move, junk) ==
      Walk(if !move then ds else if ds[i] + 1 >= ns[i] then ds[i := 0] else ds[i := ds[i] + 1], ns, i + 1,
           if move then ds[i] + 1 >= ns[i] else junk(i), junk)
  {
  }

  lemma WalkedLast(ps: seq<Param>, i: nat, move: bool, junk: nat -> bool, after: seq<Param>, ok: bool)
    requires AllWell(ps) && i == |ps| - 1
    requires ok == !(move && ps[i].currIdx + 1 >= ps[i].valueNum)
    requires after == if move && ok then ps[i := Turned(ps[i], ps[i].currIdx + 1)] else ps
    ensures Walked(ps, i, move, junk, after, ok)
  {
    WalkDigits(Idxs(ps), Nums(ps), i, move, junk);
    var ds := Walk(Idxs(ps), Nums(ps), i, move, junk).0;
    assert after == Showing(ps, ds);
  }

  function Recorded(p: Param): Param {
    p.(bestIdx := p.currIdx, bestValue := p.currValue)
  }

  /** C++ integer division truncates towards zero. */
  function Truncated(a: int, b: int): int
    requires b != 0
  {
    if (a >= 0) == (b > 0) then (if a >= 0 then a / b else (-a) / (-b))
    else if a >= 0 then -(a / (-b)) else -((-a) / b)
  }

  /** The remainder is smaller than the divisor and has the sign of the dividend. */
  lemma TruncatedRest(a: int, b: int) returns (r: int)
    requires b != 0
    ensures a == b * Truncated(a, b) + r && (if b > 0 then -b < r < b else b < r < -b)
    ensures r != 0 ==> (r < 0 <==> a < 0)
  {
    r := a - b * Truncated(a, b);
    var c, d: nat := if a >= 0 then a else -a, if b > 0 then b else -b;
    DivParts(c, d);
  }

  class SearchSpace {
    var paramNum: nat
    var searchParams: seq<Param>
    var searchParamIdx: nat
    var moveCurrIdx: bool

    constructor ()
      ensures paramNum == 0 && searchParams == [] && searchParamIdx == 0 && moveCurrIdx
    {
      paramNum, searchParams, searchParamIdx, moveCurrIdx := 0, [], 0, true;
    }

    ghost predicate Valid()
      reads this
    {
      paramNum == |searchParams| && AllWell(searchParams)
    }

    /** Between two searches the cursor is at the first parameter. */
    ghost predicate AtRest()
      reads this
    {
      searchParamIdx == 0 && moveCurrIdx
    }

    method GetNexComb(junk: nat -> bool) returns (ok: bool)
      requires Valid() && searchParamIdx < paramNum
      modifies `searchParams, `searchParamIdx, `moveCurrIdx
      ensures Valid() && AtRest()
      ensures Walked(old(searchParams), old(searchParamIdx), old(moveCurrIdx), junk, searchParams, ok)
      decreases paramNum - searchParamIdx
    {
      hide Walk, Walked, Digits;
      ghost var before := searchParams;
      var i := searchParamIdx;
      var currParam := searchParams[i];
      if searchParamIdx >= paramNum - 1 && currParam.currIdx >= currParam.valueNum - 1 && moveCurrIdx {
        WalkedLast(before, i, true, junk, searchParams, false);
        moveCurrIdx := true;
        searchParamIdx := 0;
        return false;
      }
      var moveNextIdx := junk(i);
      if moveCurrIdx {
        if currParam.currIdx >= currParam.valueNum - 1 {
          currParam := currParam.(currIdx := 0);
          moveNextIdx := true;
        } else {
          currParam := currParam.(currIdx := currParam.currIdx + 1);
          moveNextIdx := false;
        }
        currParam := currParam.(currValue := currParam.valueArray[currParam.currIdx]);
        searchParams := searchParams[i := currParam];
      }
      if searchParamIdx >= paramNum - 1 {
        WalkedLast(before, i, moveCurrIdx, junk, searchParams, true);
        moveCurrIdx := true;
        searchParamIdx := 0;
        return true;
      }
      ghost var moved, move := searchParams, moveCurrIdx;
      searchParamIdx := searchParamIdx + 1;
      moveCurrIdx := moveNextIdx;
      ok := GetNexComb(junk);
      WalkedOn(before, i, move, junk, moved, searchParams, ok);
    }

    method RecordBestComb()
      requires paramNum == |searchParams|
      modifies `searchParams
      ensures |searchParams| == paramNum && forall i :: 0 <= i < paramNum ==>
        searchParams[i] == Recorded(old(searchParams)[i])
    {
      for i := 0 to paramNum
        invariant |searchParams| == paramNum
        invariant forall j :: 0 <= j < paramNum ==>
          searchParams[j] == if j < i then Recorded(old(searchParams)[j]) else old(searchParams)[j]
      {
        searchParams := searchParams[i := Recorded(searchParams[i])];
      }
    }

    /** A parameter without values gets them from its range: as many as the range has steps, but the loop
        never moves on from the smallest. */
    method AddOneParam(param: Param) returns (ok: bool)
      requires paramNum == |searchParams|
      modifies `searchParams, `paramNum
      ensures ok == (param.valueArray != [] || (param.step != 0 &&
        Truncated(param.maxValue - param.minValue, param.step) > 0))
      ensures !ok ==> searchParams == old(searchParams) && paramNum == old(paramNum)
      ensures ok ==> (
        && paramNum == old(paramNum) + 1 == |searchParams|
        && searchParams[..paramNum - 1] == old(searchParams) && Well(searchParams[paramNum - 1])
        && searchParams[paramNum - 1].valueArray ==
          (if param.valueArray != [] then param.valueArray else RangeValues(param))
        && searchParams[paramNum - 1].currIdx == 0)
    {
      var newParam := param;
      if |newParam.valueArray| == 0 {
        if newParam.step == 0 {
          return false;
        }
        var len := Truncated(newParam.maxValue - newParam.minValue, newParam.step);
        if len <= 0 {
          return false;
        }
        for i := 0 to len
          invariant newParam == param.(valueArray := seq(i, _ => param.minValue))
        {
          newParam := newParam.(valueArray := newParam.valueArray + [param.minValue]);
        }
      }
      newParam := newParam.(currIdx := 0, currValue := newParam.valueArray[0], valueNum := |newParam.valueArray|);
      searchParams := searchParams + [newParam];
      paramNum := paramNum + 1;
      ok := true;
    }
  }

  function RangeValues(p: Param): seq<int>
    requires p.step != 0
  {
    var len := Truncated(p.maxValue - p.minValue, p.step);
    seq(if len > 0 then len else 0, _ => p.minValue)
  }

  /** The values of a range are min, min + step, min + 2 step, ... exactly when the range is
      one step long. */
  lemma RangeIsRight(p: Param)
    requires p.step != 0 && Truncated(p.maxValue - p.minValue, p.step) > 0
    ensures (forall i :: 0 <= i < |RangeValues(p)| ==> RangeValues(p)[i] == p.minValue + i * p.step) <==>
      Truncated(p.maxValue - p.minValue, p.step) == 1
  {
    if |RangeValues(p)| > 1 {
      assert RangeValues(p)[1] != p.minValue + 1 * p.step;
    }
  }
}

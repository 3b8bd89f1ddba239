/** The register files: first-fit allocation of aligned runs, with a high-water mark. A cell is 0 when
    its register is free and 1 when it is taken. */
module Registers {
  import opened Sets

  datatype Option<+T> = None | Some(value: T)

  /** What the scan for a free run ends with: a run, the end of the file, or a run that is still free
      where the file ends, so that the next cell it looks at lies behind the file. */
  datatype ScanResult = Found(idx: nat) | Full | Overrun

  ghost predicate AllFree(cells: seq<int>, from: nat, to: nat) {
    to <= |cells| && forall j :: from <= j < to ==> cells[j] == 0
  }

  predicate IsAligned(i: nat, align: nat)
    requires align > 0
  {
    i % align == 0
  }

  /** How many of the `len` cells from i on the inner scan passes. */
  function FreeRun(cells: seq<int>, i: nat, len: nat): (n: nat)
    requires i <= |cells|
    ensures n <= len && i + n <= |cells| && AllFree(cells, i, i + n)
    ensures n < len && i + n < |cells| ==> cells[i + n] != 0
    decreases len
  {
    if len == 0 || i == |cells| || cells[i] != 0 then 0 else 1 + FreeRun(cells, i + 1, len - 1)
  }

  function Scan(cells: seq<int>, len: nat, align: nat, i: nat): ScanResult
    requires align > 0 && i <= |cells|
    decreases |cells| - i
  {
    if i == |cells| then Full
    else if !IsAligned(i, align) || cells[i] != 0 then Scan(cells, len, align, i + 1)
    else
      var n := FreeRun(cells, i, len);
      if n == len then Found(i)
      else if i + n == |cells| then Overrun
      else Scan(cells, len, align, i + 1)
  }

  /** An aligned run of len free cells inside the file. */
  ghost predicate Fits(cells: seq<int>, i: nat, len: nat, align: nat)
    requires align > 0
  {
    i < |cells| && IsAligned(i, align) && cells[i] == 0 && AllFree(cells, i, i + len)
  }

  /** An aligned free run that reaches the end of the file before it is long enough. */
  ghost predicate Short(cells: seq<int>, i: nat, len: nat, align: nat)
    requires align > 0
  {
    i < |cells| < i + len && IsAligned(i, align) && AllFree(cells, i, |cells|)
  }

  ghost predicate NoneFits(cells: seq<int>, len: nat, align: nat, i: nat, to: nat)
    requires align > 0
  {
    forall j :: i <= j < to ==> !Fits(cells, j, len, align)
  }

  ghost predicate SomeShort(cells: seq<int>, len: nat, align: nat, i: nat)
    requires align > 0
  {
    exists j :: i <= j && Short(cells, j, len, align)
  }

  lemma {:induction false} ScanForward(cells: seq<int>, len: nat, align: nat, i: nat)
    requires align > 0 && i <= |cells|
    ensures match Scan(cells, len, align, i)
      case Found(k) => i <= k && Fits(cells, k, len, align) && NoneFits(cells, len, align, i, k)
      case Overrun => NoneFits(cells, len, align, i, |cells|) && SomeShort(cells, len, align, i)
      case Full => NoneFits(cells, len, align, i, |cells|) && !SomeShort(cells, len, align, i)
    decreases |cells| - i
  {
    hide IsAligned;
    if i < |cells| {
      ScanForward(cells, len, align, i + 1);
      if IsAligned(i, align) && cells[i] == 0 {
        var n := FreeRun(cells, i, len);
        if n < len && i + n < |cells| {
          assert !AllFree(cells, i, |cells|);
        } else {
          assert n == len || Short(cells, i, len, align);
        }
      }
    }
  }

  /** The scan finds the lowest run that fits; it leaves the file exactly when none fits and some
      aligned free run is cut off by the end of the file; otherwise it reports that none fits. */
  lemma ScanMeaning(cells: seq<int>, len: nat, align: nat)
    requires align > 0
    ensures var r := Scan(cells, len, align, 0);
      && (forall k :: r == Found(k) <==> Fits(cells, k, len, align) && NoneFits(cells, len, align, 0, k))
      && (r == Overrun <==> NoneFits(cells, len, align, 0, |cells|) && SomeShort(cells, len, align, 0))
      && (r == Full <==> NoneFits(cells, len, align, 0, |cells|) && !SomeShort(cells, len, align, 0))
  {
    hide IsAligned, Scan, Short, AllFree;
    ScanForward(cells, len, align, 0);
  }

  function Fill(cells: seq<int>, i: nat, len: nat, v: int): (r: seq<int>)
    requires i + len <= |cells|
    ensures |r| == |cells|
    ensures forall j :: 0 <= j < |r| ==> r[j] == if i <= j < i + len then v else cells[j]
  {
    seq(|cells|, j requires 0 <= j < |cells| => if i <= j < i + len then v else cells[j])
  }

  function Max(a: nat, b: nat): nat {
    if a < b then b else a
  }

  // ---------------------------------------------------------------------------------------------
  // Runs of allocations and releases
  // ---------------------------------------------------------------------------------------------

  datatype Span = Span(idx: nat, len: nat, align: nat)

  /** A register file, its high-water mark, and the handles that are live. */
  datatype File = File(cells: seq<int>, countMax: nat, live: map<nat, Span>, made: nat)

  datatype Request = New(len: nat, align: nat) | Del(id: nat) | Clr

  predicate Allowed(f: File, q: Request) {
    match q
    case New(len, align) => align > 0 && Scan(f.cells, len, align, 0) != Overrun
    case Del(id) => id in f.live && f.live[id].idx + f.live[id].len <= |f.cells|
    case Clr => true
  }

  function Serve(f: File, q: Request): File
    requires Allowed(f, q)
  {
    match q
    case New(len, align) =>
      (match Scan(f.cells, len, align, 0)
       case Found(i) =>
         ScanInside(f.cells, len, align);
         File(Fill(f.cells, i, len, 1), Max(f.countMax, i + len), f.live[f.made := Span(i, len, align)], f.made + 1)
       case _ => f)
    case Del(id) => f.(cells := Fill(f.cells, f.live[id].idx, f.live[id].len, 0), live := f.live - {id})
    case Clr => f.(cells := Fill(f.cells, 0, |f.cells|, 0), live := map[])
  }

  lemma ScanInside(cells: seq<int>, len: nat, align: nat)
    requires align > 0
    ensures var r := Scan(cells, len, align, 0); r.Found? ==> r.idx + len <= |cells| && Fits(cells, r.idx, len, align)
  {
    ScanMeaning(cells, len, align);
  }

  predicate Covers(s: Span, j: int) {
    s.idx <= j < s.idx + s.len
  }

  /** Live spans are aligned, inside the file and below the high-water mark, pairwise disjoint, and the
      taken cells are exactly the covered ones. */
  ghost predicate Sound(f: File) {
    && f.countMax <= |f.cells|
    && (forall id :: id in f.live ==>
      && id < f.made && f.live[id].align > 0 && f.live[id].idx % f.live[id].align == 0
      && f.live[id].idx + f.live[id].len <= f.countMax)
    && (forall a, b, j :: a in f.live && b in f.live && a != b && Covers(f.live[a], j) ==> !Covers(f.live[b], j))
    && (forall j :: 0 <= j < |f.cells| ==> f.cells[j] == if Covered(f.live, j) then 1 else 0)
  }

  ghost predicate Covered(live: map<nat, Span>, j: int) {
    exists id :: id in live && Covers(live[id], j)
  }

  lemma {:induction false} ServeSound(f: File, q: Request)
    requires Sound(f) && Allowed(f, q)
    ensures Sound(Serve(f, q)) && |Serve(f, q).cells| == |f.cells| && Serve(f, q).countMax >= f.countMax
  {
    hide Scan;
    var g := Serve(f, q);
    match q
    case New(len, align) =>
      ScanInside(f.cells, len, align);
      if g != f {
        var s := g.live[f.made];
        forall j | 0 <= j < |f.cells| ensures g.cells[j] == if Covered(g.live, j) then 1 else 0 {
          if Covers(s, j) { assert Covered(g.live, j); }
          if id :| id in f.live && Covers(f.live[id], j) { assert id in g.live && g.live[id] == f.live[id]; }
        }
        forall id, j | id in f.live && Covers(f.live[id], j) ensures !Covers(s, j) {
          assert Covered(f.live, j);
        }
      }
    case Del(id) =>
      var s := f.live[id];
      forall j | 0 <= j < |f.cells| ensures g.cells[j] == if Covered(g.live, j) then 1 else 0 {
        if Covers(s, j) {
          assert forall b :: b in g.live ==> !Covers(g.live[b], j);
        } else if b :| b in f.live && Covers(f.live[b], j) {
          assert b in g.live;
        }
      }
    case Clr =>
  }

  // ---------------------------------------------------------------------------------------------
  // Whole runs
  // ---------------------------------------------------------------------------------------------

  predicate AllowedAll(f: File, qs: seq<Request>)
    decreases |qs|, 0
  {
    qs == [] || (AllowedAll(f, qs[..|qs| - 1]) && Allowed(ServeAll(f, qs[..|qs| - 1]), qs[|qs| - 1]))
  }

  function ServeAll(f: File, qs: seq<Request>): File
    requires AllowedAll(f, qs)
    decreases |qs|, 1
  {
    if qs == [] then f else Serve(ServeAll(f, qs[..|qs| - 1]), qs[|qs| - 1])
  }

  function Empty(n: nat): File {
    File(seq(n, _ => 0), 0, map[], 0)
  }

  lemma EmptySound(n: nat)
    ensures Sound(Empty(n))
  {
  }

  /** After every run of requests on owned handles the file is sound, and the mark never fell. */
  lemma {:induction false} EveryRunSound(n: nat, qs: seq<Request>)
    requires AllowedAll(Empty(n), qs)
    ensures var f := ServeAll(Empty(n), qs);
      && Sound(f) && |f.cells| == n
      && forall k :: 0 <= k <= |qs| ==>
        AllowedAll(Empty(n), qs[..k]) && ServeAll(Empty(n), qs[..k]).countMax <= f.countMax
  {
    if qs == [] {
      EmptySound(n);
    } else {
      hide Serve, Sound, Allowed, Empty;
      var m := |qs| - 1;
      EveryRunSound(n, qs[..m]);
      ServeSound(ServeAll(Empty(n), qs[..m]), qs[m]);
      forall k | 0 <= k <= |qs|
        ensures AllowedAll(Empty(n), qs[..k]) && ServeAll(Empty(n), qs[..k]).countMax <= ServeAll(Empty(n), qs).countMax
      {
        if k <= m { assert qs[..m][..k] == qs[..k]; } else { assert qs[..k] == qs; }
      }
    }
  }

  /** The number of taken registers. */
  function Ones(cells: seq<int>): int {
    if cells == [] then 0 else cells[0] + Ones(cells[1..])
  }

  lemma {:induction false} OnesFill(cells: seq<int>, i: nat, len: nat, was: int, v: int)
    requires i + len <= |cells| && forall j :: i <= j < i + len ==> cells[j] == was
    ensures Ones(Fill(cells, i, len, v)) == Ones(cells) + (v - was) * len
    decreases |cells|
  {
    if cells != [] {
      if i > 0 {
        OnesFill(cells[1..], i - 1, len, was, v);
        assert Fill(cells, i, len, v)[1..] == Fill(cells[1..], i - 1, len, v);
      } else if len > 0 {
        OnesFill(cells[1..], 0, len - 1, was, v);
        assert Fill(cells, 0, len, v)[1..] == Fill(cells[1..], 0, len - 1, v);
        assert (v - was) * len == (v - was) * (len - 1) + (v - was);
      } else {
        assert Fill(cells, 0, 0, v) == cells;
      }
    }
  }

  /** One request changes the number of taken registers by the length it takes or gives back. */
  lemma OnesAfter(f: File, q: Request)
    requires Sound(f) && Allowed(f, q)
    ensures var g := Serve(f, q);
      match q
      case New(len, _) => Ones(g.cells) == if g == f then Ones(f.cells) else Ones(f.cells) + len
      case Del(id) => Ones(g.cells) == Ones(f.cells) - f.live[id].len
      case Clr => Ones(g.cells) == 0
  {
    hide Scan;
    match q
    case New(len, align) =>
      ScanInside(f.cells, len, align);
      var r := Scan(f.cells, len, align, 0);
      if r.Found? { OnesFill(f.cells, r.idx, len, 0, 1); }
    case Del(id) =>
      var s := f.live[id];
      forall j | s.idx <= j < s.idx + s.len ensures f.cells[j] == 1 { assert Covers(s, j); }
      OnesFill(f.cells, s.idx, s.len, 1, 0);
    case Clr =>
      NoOnes(Fill(f.cells, 0, |f.cells|, 0));
  }

  lemma {:induction false} NoOnes(cells: seq<int>)
    requires forall j :: 0 <= j < |cells| ==> cells[j] == 0
    ensures Ones(cells) == 0
  {
    if cells != [] { NoOnes(cells[1..]); }
  }

  /** The sum of the lengths of the live variables. */
  ghost function Total(live: map<nat, Span>): int
    decreases |live|
  {
    if live == map[] then 0
    else
      var id :| id in live;
      live[id].len + Total(live - {id})
  }

  lemma {:induction false} TotalWithout(live: map<nat, Span>, id: nat)
    requires id in live
    ensures Total(live) == live[id].len + Total(live - {id})
    decreases |live|
  {
    var a :| a in live && Total(live) == live[a].len + Total(live - {a});
    if a != id {
      assert (live - {a}).Keys == live.Keys - {a} && (live - {id}).Keys == live.Keys - {id};
      TotalWithout(live - {a}, id);
      TotalWithout(live - {id}, a);
      assert live - {a} - {id} == live - {id} - {a};
    }
  }

  lemma {:induction false} OnesAreTotal(f: File, q: Request)
    requires Sound(f) && Allowed(f, q) && Ones(f.cells) == Total(f.live)
    ensures Ones(Serve(f, q).cells) == Total(Serve(f, q).live)
  {
    hide Scan, Fill, Ones, Sound;
    OnesAfter(f, q);
    var g := Serve(f, q);
    match q
    case New(len, align) =>
      if g != f {
        NewHandle(f);
        TotalWithout(g.live, f.made);
        assert g.live - {f.made} == f.live;
      }
    case Del(id) => TotalWithout(f.live, id);
    case Clr =>
  }

  /** After every run the number of taken registers is the sum of the lengths of the live variables. */
  lemma {:induction false} EveryRunTotal(n: nat, qs: seq<Request>)
    requires AllowedAll(Empty(n), qs)
    ensures Ones(ServeAll(Empty(n), qs).cells) == Total(ServeAll(Empty(n), qs).live)
  {
    if qs == [] {
      NoOnes(Empty(n).cells);
    } else {
      hide Serve, Sound, Allowed, Empty, Ones, Total;
      var m := |qs| - 1;
      EveryRunTotal(n, qs[..m]);
      EveryRunSound(n, qs[..m]);
      OnesAreTotal(ServeAll(Empty(n), qs[..m]), qs[m]);
    }
  }

  // ---------------------------------------------------------------------------------------------
  // Requests of one size: first fit wastes nothing
  // ---------------------------------------------------------------------------------------------

  predicate Uniform(q: Request, size: nat) {
    q.New? ==> q.len == size && q.align == size
  }

  /** Where block b starts. */
  function BlockStart(b: nat, size: nat): nat {
    b * size
  }

  lemma StartOrder(b: nat, c: nat, size: nat)
    ensures b < c ==> BlockStart(b, size) + size <= BlockStart(c, size)
    ensures BlockStart(b + 1, size) == BlockStart(b, size) + size
  {
    assert b < c ==> (b + 1) * size <= c * size;
  }

  lemma StartOf(i: nat, size: nat)
    requires size > 0
    ensures i == BlockStart(i / size, size) + i % size
  {
  }

  lemma {:induction false} StartAligned(b: nat, size: nat)
    requires size > 0
    ensures BlockStart(b, size) % size == 0 && BlockStart(b, size) / size == b
  {
    hide BlockStart;
    var c := BlockStart(b, size) / size;
    StartOf(BlockStart(b, size), size);
    StartOrder(b, c, size);
    StartOrder(c, b, size);
  }

  ghost predicate IsBlock(s: Span, size: nat, b: nat) {
    s.idx == BlockStart(b, size) && s.len == size
  }

  ghost predicate SomeBlock(s: Span, size: nat) {
    exists b: nat :: IsBlock(s, size, b)
  }

  /** Every live span is a block. */
  ghost predicate Blocks(live: map<nat, Span>, size: nat) {
    forall id :: id in live ==> SomeBlock(live[id], size)
  }

  ghost predicate Disjoint(live: map<nat, Span>) {
    forall a, b, j :: a in live && b in live && a != b && Covers(live[a], j) ==> !Covers(live[b], j)
  }

  ghost predicate Used(live: map<nat, Span>, size: nat, b: nat) {
    exists id :: id in live && IsBlock(live[id], size, b)
  }

  ghost function BlocksOf(live: map<nat, Span>, size: nat): (r: set<nat>)
    requires size > 0 && Blocks(live, size)
    ensures forall b: nat :: b in r <==> Used(live, size, b)
  {
    forall id, b: nat | id in live && IsBlock(live[id], size, b) ensures b == live[id].idx / size {
      StartAligned(b, size);
    }
    set id | id in live :: live[id].idx / size
  }

  /** No two variables have the same block. */
  lemma {:induction false} BlocksOfSize(live: map<nat, Span>, size: nat)
    requires size > 0 && Blocks(live, size) && Disjoint(live)
    ensures |BlocksOf(live, size)| == |live|
    decreases |live|
  {
    if live != map[] {
      hide BlockStart, Disjoint, BlocksOf;
      var id :| id in live;
      var rest := live - {id};
      assert rest.Keys == live.Keys - {id};
      assert Blocks(rest, size);
      RestDisjoint(live, id);
      BlocksOfSize(rest, size);
      var b: nat :| IsBlock(live[id], size, b);
      OneBlockMore(live, rest, id, size, b);
      if Used(rest, size, b) {
        var a :| a in rest && IsBlock(rest[a], size, b);
        SharedBlock(live, a, id, size, b);
        assert false;
      }
    }
  }

  lemma RestDisjoint(live: map<nat, Span>, id: nat)
    requires Disjoint(live)
    ensures Disjoint(live - {id})
  {
  }

  lemma SharedBlock(live: map<nat, Span>, a: nat, id: nat, size: nat, b: nat)
    requires a in live && id in live && a != id && size > 0 && IsBlock(live[a], size, b) && IsBlock(live[id], size, b)
    ensures !Disjoint(live)
  {
    assert Covers(live[a], live[id].idx) && Covers(live[id], live[id].idx);
  }

  lemma OneBlockMore(live: map<nat, Span>, rest: map<nat, Span>, id: nat, size: nat, b: nat)
    requires size > 0 && Blocks(live, size) && Blocks(rest, size)
    requires id in live && rest == live - {id} && IsBlock(live[id], size, b)
    ensures BlocksOf(live, size) == BlocksOf(rest, size) + {b}
  {
    hide BlockStart, BlocksOf;
    forall c: nat ensures Used(live, size, c) <==> Used(rest, size, c) || c == b {
      if a :| a in live && IsBlock(live[a], size, c) {
        if a == id { StartAligned(b, size); StartAligned(c, size); } else { assert a in rest && rest[a] == live[a]; }
      }
      if a :| a in rest && IsBlock(rest[a], size, c) { assert a in live && live[a] == rest[a]; }
    }
  }

  /** A block below the one first fit chooses is used. */
  lemma {:induction false} LowerBlockUsed(f: File, size: nat, b: nat, c: nat)
    requires size > 0 && Sound(f) && Blocks(f.live, size) &&
      Scan(f.cells, size, size, 0) == Found(BlockStart(b, size)) && c < b
    ensures Used(f.live, size, c)
  {
    hide Scan, BlockStart;
    ScanMeaning(f.cells, size, size);
    StartAligned(c, size);
    StartOrder(c, b, size);
    assert Fits(f.cells, BlockStart(b, size), size, size) && !Fits(f.cells, BlockStart(c, size), size, size);
    var j :| BlockStart(c, size) <= j < BlockStart(c, size) + size && f.cells[j] != 0;
    assert Covered(f.live, j);
    var id :| id in f.live && Covers(f.live[id], j);
    var d: nat :| IsBlock(f.live[id], size, d);
    StartOrder(c, d, size);
    StartOrder(d, c, size);
    assert d == c;
  }

  /** The chosen run is itself a block, and no one's. */
  lemma ChosenBlock(f: File, size: nat, i: nat)
    requires size > 0 && Sound(f) && Blocks(f.live, size) && Scan(f.cells, size, size, 0) == Found(i)
    ensures i == BlockStart(i / size, size) && !Used(f.live, size, i / size)
  {
    hide Scan, BlockStart;
    ScanInside(f.cells, size, size);
    StartOf(i, size);
    assert !Covered(f.live, i);
    assert forall id :: id in f.live ==> !Covers(f.live[id], i);
  }

  lemma UsedBelow(f: File, size: nat, peak: nat, c: nat)
    requires size > 0 && Sound(f) && f.countMax == BlockStart(peak, size) && Used(f.live, size, c)
    ensures c < peak
  {
    hide BlockStart;
    var id :| id in f.live && IsBlock(f.live[id], size, c);
    StartOrder(peak, c, size);
  }

  /** Where first fit puts the next block: within the blocks already used, unless all of them are live. */
  lemma {:induction false} NextBlock(f: File, size: nat, b: nat, peak: nat)
    requires size > 0 && Sound(f) && Blocks(f.live, size) && Scan(f.cells, size, size, 0) == Found(BlockStart(b, size))
    requires |f.live| <= peak && f.countMax == BlockStart(peak, size)
    ensures b <= |f.live| && (|f.live| == peak ==> b == peak)
  {
    hide Scan, BlocksOf, BlockStart;
    var s := BlocksOf(f.live, size);
    BlocksOfSize(f.live, size);
    forall c | 0 <= c < b ensures c in s { LowerBlockUsed(f, size, b, c); }
    SubsetSize(Below(b), s);
    forall c | c in s ensures c < peak { UsedBelow(f, size, peak, c); }
    SubsetSize(s, Below(peak));
    ChosenBlock(f, size, BlockStart(b, size));
    StartAligned(b, size);
  }

  lemma UniformNew(f: File, size: nat, peak: nat)
    requires size > 0 && Sound(f) && Blocks(f.live, size) && Scan(f.cells, size, size, 0).Found?
    requires |f.live| <= peak && f.countMax == BlockStart(peak, size)
    ensures Allowed(f, New(size, size))
    ensures var g := Serve(f, New(size, size));
      Blocks(g.live, size) && g.countMax == BlockStart(Max(peak, |g.live|), size)
  {
    hide Scan, Fill, BlockStart, Sound, Blocks;
    var g := Serve(f, New(size, size));
    var i := Scan(f.cells, size, size, 0).idx;
    var b := i / size;
    ChosenBlock(f, size, i);
    NextBlock(f, size, b, peak);
    NewHandle(f);
    assert g.live.Keys == f.live.Keys + {f.made};
    StartOrder(b, peak, size);
    MoreBlocks(f.live, f.made, Span(i, size, size), size, b);
  }

  lemma NewHandle(f: File)
    requires Sound(f)
    ensures f.made !in f.live
  {
  }

  lemma MoreBlocks(live: map<nat, Span>, id: nat, s: Span, size: nat, b: nat)
    requires Blocks(live, size) && IsBlock(s, size, b)
    ensures Blocks(live[id := s], size)
  {
    hide BlockStart;
    assert SomeBlock(s, size);
  }

  lemma {:induction false} UniformStep(f: File, q: Request, size: nat, peak: nat)
    requires size > 0 && Sound(f) && Blocks(f.live, size) && Allowed(f, q) && Uniform(q, size)
    requires |f.live| <= peak && f.countMax == BlockStart(peak, size)
    ensures var g := Serve(f, q); Blocks(g.live, size) && g.countMax == BlockStart(Max(peak, |g.live|), size)
  {
    hide Scan, Fill, BlockStart, Sound;
    match q
    case New(_, _) =>
      if Scan(f.cells, size, size, 0).Found? { UniformNew(f, size, peak); }
    case Del(id) =>
      var live := f.live - {id};
      assert live.Keys == f.live.Keys - {id};
      assert |live| <= |f.live|;
      assert Blocks(live, size);
    case Clr =>
  }

  /** The largest number of variables live at once. */
  function Peak(f: File, qs: seq<Request>): nat
    requires AllowedAll(f, qs)
    decreases |qs|
  {
    var now := |ServeAll(f, qs).live|;
    if qs == [] then now else Max(Peak(f, qs[..|qs| - 1]), now)
  }

  /** When every request asks for the same size at that alignment, the high-water mark is exactly the
      size times the largest number of variables live at once: first fit is optimal. */
  lemma {:induction false} UniformIsOptimal(n: nat, qs: seq<Request>, size: nat)
    requires size > 0 && AllowedAll(Empty(n), qs) && forall i :: 0 <= i < |qs| ==> Uniform(qs[i], size)
    ensures var f := ServeAll(Empty(n), qs);
      Blocks(f.live, size) && |f.live| <= Peak(Empty(n), qs) && f.countMax == Peak(Empty(n), qs) * size
  {
    if qs != [] {
      var m := |qs| - 1;
      UniformIsOptimal(n, qs[..m], size);
      EveryRunSound(n, qs[..m]);
      hide Serve, Sound, Allowed, Blocks;
      UniformStep(ServeAll(Empty(n), qs[..m]), qs[m], size, Peak(Empty(n), qs[..m]));
    }
  }
}

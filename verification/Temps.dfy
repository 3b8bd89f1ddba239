/** The temporaries of a block: taken one after the other, given back in the same order. */
module Temps {
  import opened Registers

  ghost predicate Owned(cells: seq<int>, i: nat, n: nat) {
    i + n <= |cells| && forall j :: i <= j < i + n ==> cells[j] != 0
  }

  /** Runs of these sizes, each aligned to its size, can be taken one after the other. */
  predicate Room(cells: seq<int>, sizes: seq<nat>)
    decreases |sizes|
  {
    sizes == [] ||
    (sizes[0] > 0 && Scan(cells, sizes[0], sizes[0], 0).Found? && Room(AfterOne(cells, sizes[0]), sizes[1..]))
  }

  function Place(cells: seq<int>, size: nat): nat
    requires size > 0 && Scan(cells, size, size, 0).Found?
  {
    Scan(cells, size, size, 0).idx
  }

  function AfterOne(cells: seq<int>, size: nat): (r: seq<int>)
    requires size > 0 && Scan(cells, size, size, 0).Found?
    ensures |r| == |cells|
  {
    ScanInside(cells, size, size);
    Fill(cells, Place(cells, size), size, 1)
  }

  /** Where they come to lie. */
  function Places(cells: seq<int>, sizes: seq<nat>): (t: seq<nat>)
    requires Room(cells, sizes)
    ensures |t| == |sizes|
    decreases |sizes|
  {
    if sizes == [] then [] else [Place(cells, sizes[0])] + Places(AfterOne(cells, sizes[0]), sizes[1..])
  }

  function AfterTaking(cells: seq<int>, sizes: seq<nat>): (r: seq<int>)
    requires Room(cells, sizes)
    ensures |r| == |cells|
    decreases |sizes|
  {
    if sizes == [] then cells else AfterTaking(AfterOne(cells, sizes[0]), sizes[1..])
  }

  ghost predicate Inside(cells: seq<int>, sizes: seq<nat>, t: seq<nat>) {
    |t| == |sizes| && forall i :: 0 <= i < |t| ==> t[i] + sizes[i] <= |cells|
  }

  function AfterGiving(cells: seq<int>, sizes: seq<nat>, t: seq<nat>): (r: seq<int>)
    requires Inside(cells, sizes, t)
    ensures |r| == |cells|
    decreases |sizes|
  {
    if sizes == [] then cells else AfterGiving(Fill(cells, t[0], sizes[0], 0), sizes[1..], t[1..])
  }

  ghost predicate RunsApart(a: nat, m: nat, b: nat, n: nat) {
    a + m <= b || b + n <= a
  }

  /** The runs are inside the file and aligned, they were free, and no two of them overlap. */
  ghost predicate Placed(cells: seq<int>, sizes: seq<nat>, t: seq<nat>) {
    && Inside(cells, sizes, t)
    && (forall i :: 0 <= i < |t| ==> sizes[i] > 0 && IsAligned(t[i], sizes[i]) && AllFree(cells, t[i], t[i] + sizes[i]))
    && (forall i, k :: 0 <= i < k < |t| ==> RunsApart(t[i], sizes[i], t[k], sizes[k]))
  }

  lemma {:induction false} PlacesPlaced(cells: seq<int>, sizes: seq<nat>)
    requires Room(cells, sizes)
    ensures Placed(cells, sizes, Places(cells, sizes))
    decreases |sizes|
  {
    if sizes != [] {
      hide Scan, Room, Places, IsAligned;
      RoomNext(cells, sizes);
      var a, m := Place(cells, sizes[0]), sizes[0];
      PlacesPlaced(AfterOne(cells, m), sizes[1..]);
      ScanInside(cells, m, m);
      var t, rest := Places(cells, sizes), Places(AfterOne(cells, m), sizes[1..]);
      forall k | 0 < k < |t| ensures AllFree(cells, t[k], t[k] + sizes[k]) && RunsApart(a, m, t[k], sizes[k]) {
        assert t[k] == rest[k - 1];
        ClearOfTaken(cells, m, t[k], sizes[k]);
      }
      forall i, k | 0 < i < k < |t| ensures RunsApart(t[i], sizes[i], t[k], sizes[k]) {
        assert RunsApart(rest[i - 1], sizes[1..][i - 1], rest[k - 1], sizes[1..][k - 1]);
      }
    }
  }

  lemma RoomNext(cells: seq<int>, sizes: seq<nat>)
    requires Room(cells, sizes) && sizes != []
    ensures sizes[0] > 0 && Scan(cells, sizes[0], sizes[0], 0).Found? && Room(AfterOne(cells, sizes[0]), sizes[1..])
    ensures Places(cells, sizes) == [Place(cells, sizes[0])] + Places(AfterOne(cells, sizes[0]), sizes[1..])
    ensures AfterTaking(cells, sizes) == AfterTaking(AfterOne(cells, sizes[0]), sizes[1..])
  {
  }

  /** What is free after a run was taken was free before, and is no part of the run. */
  lemma ClearOfTaken(cells: seq<int>, size: nat, b: nat, n: nat)
    requires size > 0 && n > 0 && Scan(cells, size, size, 0).Found? && AllFree(AfterOne(cells, size), b, b + n)
    ensures AllFree(cells, b, b + n) && RunsApart(Place(cells, size), size, b, n)
  {
    hide Scan, Fill;
    var a := Place(cells, size);
    ScanInside(cells, size, size);
    forall j | b <= j < b + n ensures cells[j] == 0 { assert AfterOne(cells, size)[j] == 0; }
    assert AfterOne(cells, size)[b] == 0 && AfterOne(cells, size)[a] == 1;
  }

  /** Runs that were free do not touch a run the caller holds. */
  lemma ClearOfOwned(cells: seq<int>, sizes: seq<nat>, t: seq<nat>, b: nat, n: nat)
    requires Placed(cells, sizes, t) && Owned(cells, b, n) && n > 0
    ensures forall i :: 0 <= i < |t| ==> RunsApart(t[i], sizes[i], b, n)
  {
    hide IsAligned;
    forall i | 0 <= i < |t| ensures RunsApart(t[i], sizes[i], b, n) {
      assert cells[b] != 0 && cells[t[i]] == 0;
    }
  }

  /** Given back, the file is as it was. */
  lemma {:induction false} GivenBack(cells: seq<int>, sizes: seq<nat>)
    requires Room(cells, sizes)
    ensures Inside(AfterTaking(cells, sizes), sizes, Places(cells, sizes))
    ensures AfterGiving(AfterTaking(cells, sizes), sizes, Places(cells, sizes)) == cells
    decreases |sizes|
  {
    PlacesPlaced(cells, sizes);
    if sizes != [] {
      hide Scan, Fill, Room, Places, IsAligned, AfterTaking;
      RoomNext(cells, sizes);
      var m := sizes[0];
      var a, c := Place(cells, m), AfterOne(cells, m);
      ScanInside(cells, m, m);
      GivenBack(c, sizes[1..]);
      var x, t := AfterTaking(c, sizes[1..]), Places(c, sizes[1..]);
      assert Places(cells, sizes)[1..] == t;
      GiveLater(x, sizes[1..], t, a, m);
      assert Fill(c, a, m, 0) == cells;
    }
  }

  /** The order in which runs are given back does not matter. */
  lemma {:induction false} GiveLater(cells: seq<int>, sizes: seq<nat>, t: seq<nat>, a: nat, m: nat)
    requires Inside(cells, sizes, t) && a + m <= |cells|
    ensures AfterGiving(Fill(cells, a, m, 0), sizes, t) == Fill(AfterGiving(cells, sizes, t), a, m, 0)
    decreases |sizes|
  {
    if sizes != [] {
      hide Fill;
      var c := Fill(cells, t[0], sizes[0], 0);
      GiveLater(c, sizes[1..], t[1..], a, m);
      assert Fill(Fill(cells, a, m, 0), t[0], sizes[0], 0) == Fill(c, a, m, 0);
    }
  }
}

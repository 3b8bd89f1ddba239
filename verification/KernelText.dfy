/** What the finished text of a kernel says, looked up in the text itself: the numbers of its code object,
    and that they hold for the registers and the LDS bytes its program uses. */
module KernelText {
  import opened Isa
  import opened Registers
  import opened Generator

  // ---------------------------------------------------------------------------------------------
  // The default registers
  // ---------------------------------------------------------------------------------------------

  /** The first n registers are taken, the others free. */
  ghost predicate TakenTo(cells: seq<int>, n: nat) {
    n <= |cells| && (forall j :: 0 <= j < n ==> cells[j] != 0) && forall j :: n <= j < |cells| ==> cells[j] == 0
  }

  lemma {:induction false} NextFree(cells: seq<int>, n: nat, len: nat)
    requires TakenTo(cells, n) && len > 0 && n + len <= |cells|
    ensures Scan(cells, len, 1, 0) == Found(n) && TakenTo(Fill(cells, n, len, 1), n + len)
  {
    hide Scan;
    ScanMeaning(cells, len, 1);
    assert Fits(cells, n, len, 1) && NoneFits(cells, len, 1, 0, n);
  }

  lemma {:induction false} NextSgpr(g: Gen, name: string, n: nat, len: nat)
    requires TakenTo(g.s, n) && len > 0 && n + len <= |g.s| && !IsOff(name)
    ensures Safe(g, NewSgpr(name, len, 1))
    ensures var (h, r) := Do(g, NewSgpr(name, len, 1));
      && r == Got(Some(Sgpr(name, n, len, 1))) && TakenTo(h.s, n + len)
      && h == g.(s := h.s, sMax := Max(g.sMax, n + len)) && |h.s| == |g.s|
  {
    hide Scan, TakenTo, Fill;
    NextFree(g.s, n, len);
  }

  lemma {:induction false} NextVgpr(g: Gen, name: string, n: nat, len: nat)
    requires TakenTo(g.v, n) && len > 0 && n + len <= |g.v| && !IsOff(name)
    ensures Safe(g, NewVgpr(name, len, 1))
    ensures var (h, r) := Do(g, NewVgpr(name, len, 1));
      && r == Got(Some(Vgpr(name, n, len, 1))) && TakenTo(h.v, n + len)
      && h == g.(v := h.v, vMax := Max(g.vMax, n + len)) && |h.v| == |g.v|
  {
    hide Scan, TakenTo, Fill;
    NextFree(g.v, n, len);
  }

  lemma DoNext(g: Gen, p: Program, rs: seq<Reply>, n: nat)
    requires SafeAll(g, p, rs, n) && Safe(DoAll(g, p, rs, n).0, p.next(DoAll(g, p, rs, n).1))
    ensures SafeAll(g, p, rs, n + 1)
    ensures var (h, r) := DoAll(g, p, rs, n);
      DoAll(g, p, rs, n + 1) == (Do(h, p.next(r)).0, r + [Do(h, p.next(r)).1])
  {
    hide Safe, Do;
  }

  lemma NamesOn()
    ensures !IsOff("s_kernelArg") && !IsOff("s_gid_x") && !IsOff("s_gid_y") && !IsOff("s_gid_z")
    ensures !IsOff("v_tid_x") && !IsOff("v_tid_y")
  {
  }

  /** The answers to the six calls. */
  function DefaultReplies(): seq<Reply> {
    [Got(Some(Sgpr("s_kernelArg", 0, 2, 1))), Got(Some(Sgpr("s_gid_x", 2, 1, 1))), Got(Some(Sgpr("s_gid_y", 3, 1, 1))),
     Got(Some(Sgpr("s_gid_z", 4, 1, 1))), Got(Some(Vgpr("v_tid_x", 0, 1, 1))), Got(Some(Vgpr("v_tid_y", 1, 1, 1)))]
  }

  /** The writer g has taken the first k of them, sn scalar and vn vector registers. */
  ghost predicate Taken(g: Gen, k: nat, sn: nat, vn: nat) {
    && k <= |DefaultReplies()| && SafeAll(g, Defaults(), [], k)
    && var (h, rs) := DoAll(g, Defaults(), [], k);
      AfterDefaults(g, k, sn, vn, h, rs)
  }

  ghost predicate AfterDefaults(g: Gen, k: nat, sn: nat, vn: nat, h: Gen, rs: seq<Reply>)
    requires k <= |DefaultReplies()|
  {
    && rs == DefaultReplies()[..k] && TakenTo(h.s, sn) && TakenTo(h.v, vn) && |h.s| == |g.s| && |h.v| == |g.v|
    && h == g.(s := h.s, v := h.v, sMax := Max(g.sMax, sn), vMax := Max(g.vMax, vn))
  }

  lemma {:induction false} ScalarDefault(g: Gen, k: nat, name: string, n: nat, len: nat)
    requires k < |DefaultReplies()| && Taken(g, k, n, 0) && !IsOff(name) && len > 0 && n + len <= |g.s|
    requires DefaultCmd(k) == NewSgpr(name, len, 1) && DefaultReplies()[k] == Got(Some(Sgpr(name, n, len, 1)))
    ensures Taken(g, k + 1, n + len, 0)
  {
    hide Safe, Do, SafeAll, DoAll, TakenTo, IsOff, DefaultReplies, DefaultCmd;
    var (h, rs) := DoAll(g, Defaults(), [], k);
    assert |rs| == k;
    NextSgpr(h, name, n, len);
    DoNext(g, Defaults(), [], k);
    assert DefaultReplies()[..k + 1] == DefaultReplies()[..k] + [DefaultReplies()[k]];
  }

  lemma {:induction false} VectorDefault(g: Gen, k: nat, name: string, sn: nat, n: nat)
    requires k < |DefaultReplies()| && Taken(g, k, sn, n) && !IsOff(name) && n + 1 <= |g.v|
    requires DefaultCmd(k) == NewVgpr(name, 1, 1) && DefaultReplies()[k] == Got(Some(Vgpr(name, n, 1, 1)))
    ensures Taken(g, k + 1, sn, n + 1)
  {
    hide Safe, Do, SafeAll, DoAll, TakenTo, IsOff, DefaultReplies, DefaultCmd;
    var (h, rs) := DoAll(g, Defaults(), [], k);
    assert |rs| == k;
    NextVgpr(h, name, n, 1);
    DoNext(g, Defaults(), [], k);
    assert DefaultReplies()[..k + 1] == DefaultReplies()[..k] + [DefaultReplies()[k]];
  }

  lemma NoneTaken(g: Gen)
    requires AllZero(g.s, MAX_SGPR) && AllZero(g.v, MAX_VGPR)
    ensures Taken(g, 0, 0, 0)
  {
    hide Safe, Do, Defaults, DefaultReplies;
    assert DefaultReplies()[..0] == [];
  }

  /** From every writer whose registers are all free the kernel argument pointer comes to lie in s[0:1],
      behind it the three group ids, and the two thread ids in v0 and v1. */
  lemma {:induction false} DefaultsLie(g: Gen)
    requires AllZero(g.s, MAX_SGPR) && AllZero(g.v, MAX_VGPR)
    ensures CanBegin(g)
    ensures var (h, rs) := DoAll(g, Defaults(), [], 6);
      && |rs| == 6
      && rs[0] == Got(Some(Sgpr("s_kernelArg", 0, 2, 1))) && rs[1] == Got(Some(Sgpr("s_gid_x", 2, 1, 1)))
      && rs[2] == Got(Some(Sgpr("s_gid_y", 3, 1, 1))) && rs[3] == Got(Some(Sgpr("s_gid_z", 4, 1, 1)))
      && rs[4] == Got(Some(Vgpr("v_tid_x", 0, 1, 1))) && rs[5] == Got(Some(Vgpr("v_tid_y", 1, 1, 1)))
      && h.sMax == Max(g.sMax, 5) && h.vMax == Max(g.vMax, 2)
  {
    hide Safe, Do, IsOff, Taken, SafeAll, DoAll;
    NamesOn();
    NoneTaken(g);
    ScalarDefault(g, 0, "s_kernelArg", 0, 2);
    ScalarDefault(g, 1, "s_gid_x", 2, 1);
    ScalarDefault(g, 2, "s_gid_y", 3, 1);
    ScalarDefault(g, 3, "s_gid_z", 4, 1);
    VectorDefault(g, 4, "v_tid_x", 5, 0);
    VectorDefault(g, 5, "v_tid_y", 5, 1);
    AllTaken(g);
  }

  lemma AllTaken(g: Gen)
    requires Taken(g, 6, 5, 2)
    ensures CanBegin(g)
    ensures var (h, rs) := DoAll(g, Defaults(), [], 6);
      rs == DefaultReplies() && h.sMax == Max(g.sMax, 5) && h.vMax == Max(g.vMax, 2)
  {
    hide Safe, Do, SafeAll, DoAll, TakenTo, Defaults;
    assert |DefaultReplies()| == 6;
    assert DefaultReplies()[..6] == DefaultReplies();
  }

  // ---------------------------------------------------------------------------------------------
  // Looking up a number
  // ---------------------------------------------------------------------------------------------

  predicate Names(l: Line, name: string) {
    l.text.Directive? && l.text.name == name
  }

  /** What the first line with this name says. */
  function Stated(text: seq<Line>, name: string): Option<seq<int>> {
    if text == [] then None else if Names(text[0], name) then Some(text[0].text.values) else Stated(text[1..], name)
  }

  /** The text gives this number under this name. */
  predicate Says(text: seq<Line>, name: string, n: int) {
    Stated(text, name) == Some([n])
  }

  lemma {:induction false} StatedAt(text: seq<Line>, name: string, k: nat)
    requires k < |text| && Names(text[k], name) && forall i :: 0 <= i < k ==> !Names(text[i], name)
    ensures Stated(text, name) == Some(text[k].text.values)
    decreases k
  {
    hide Names;
    if k > 0 { StatedAt(text[1..], name, k - 1); }
  }

  /** The lines in front of the code object. */
  function Front(name: string): seq<Line> {
    Signature(name) + [Line(0, Label(name))]
  }

  /** The lines of the front begin with a dot, the flags with one of these letters. */
  lemma FrontNames(name: string, i: nat)
    requires i < |Front(name)|
    ensures var t := Front(name)[i].text; t.Directive? ==> t.name == "" || t.name[0] == '.'
  {
  }

  lemma FlagNames(i: nat)
    requires i < |CodeFlags()|
    ensures var t := CodeFlags()[i].text; t.Directive? && t.name != "" && t.name[0] in {'.', 'e', 'i', 'f'}
  {
  }

  ghost predicate Early(c: char) {
    c != '.' && c != 'e' && c != 'i' && c != 'f'
  }

  /** A name that begins like none of them is not found in front or flags. */
  lemma {:induction false} NotInFront(name: string, x: string, i: nat)
    requires x != "" && Early(x[0]) && i < |Front(name) + CodeFlags()|
    ensures !Names((Front(name) + CodeFlags())[i], x)
  {
    hide Front, CodeFlags;
    var n := |Front(name)|;
    if i < n { FrontNames(name, i); } else { FlagNames(i - n); }
  }

  /** The text of a kernel: front, flags, counts, and the rest. */
  function Whole(name: string, s: nat, v: nat, lds: int, rest: seq<Line>): seq<Line> {
    Front(name) + CodeFlags() + CodeCounts(s, v, lds) + rest
  }

  lemma {:induction false} CountSaid(name: string, s: nat, v: nat, lds: int, rest: seq<Line>, x: string, k: nat)
    requires x != "" && Early(x[0]) && k < |CodeCounts(s, v, lds)|
    requires Names(CodeCounts(s, v, lds)[k], x) && forall i :: 0 <= i < k ==> !Names(CodeCounts(s, v, lds)[i], x)
    ensures Stated(Whole(name, s, v, lds, rest), x) == Some(CodeCounts(s, v, lds)[k].text.values)
  {
    hide Names, Front, CodeFlags, CodeCounts;
    var a, c := Front(name) + CodeFlags(), CodeCounts(s, v, lds);
    var text := Whole(name, s, v, lds, rest);
    assert text == a + c + rest;
    forall i | 0 <= i < |a| + k ensures !Names(text[i], x) {
      if i < |a| {
        assert text[i] == a[i];
        NotInFront(name, x, i);
      } else {
        assert text[i] == c[i - |a|];
      }
    }
    assert text[|a| + k] == c[k];
    StatedAt(text, x, |a| + k);
  }

  lemma CountNames(s: nat, v: nat, lds: int)
    ensures |CodeCounts(s, v, lds)| >= 7
    ensures forall i :: 0 <= i < 7 ==> CodeCounts(s, v, lds)[i].text.Directive?
    ensures CodeCounts(s, v, lds)[0].text.name == "granulated_wavefront_sgpr_count"
    ensures CodeCounts(s, v, lds)[1].text.name == "granulated_workitem_vgpr_count"
    ensures CodeCounts(s, v, lds)[2].text.name == "user_sgpr_count"
    ensures CodeCounts(s, v, lds)[3].text.name == "wavefront_sgpr_count"
    ensures CodeCounts(s, v, lds)[4].text.name == "workitem_vgpr_count"
    ensures CodeCounts(s, v, lds)[5].text.name == "kernarg_segment_byte_size"
    ensures CodeCounts(s, v, lds)[6].text.name == "workgroup_group_segment_byte_size"
  {
  }

  /** Names that differ in one letter. */
  lemma Differ(a: string, b: string, k: nat)
    requires k < |a| && k < |b| && a[k] != b[k]
    ensures a != b
  {
  }

  lemma {:induction false} RegistersSaid(name: string, s: nat, v: nat, lds: int, rest: seq<Line>)
    ensures var text := Whole(name, s, v, lds, rest);
      && Says(text, "user_sgpr_count", 2) && Says(text, "wavefront_sgpr_count", s + 6)
      && Says(text, "workitem_vgpr_count", v)
  {
    hide Granulated, Whole, Stated;
    CountNames(s, v, lds);
    CountSaid(name, s, v, lds, rest, "user_sgpr_count", 2);
    CountSaid(name, s, v, lds, rest, "wavefront_sgpr_count", 3);
    CountSaid(name, s, v, lds, rest, "workitem_vgpr_count", 4);
  }

  lemma {:induction false} GranulesSaid(name: string, s: nat, v: nat, lds: int, rest: seq<Line>)
    ensures var text := Whole(name, s, v, lds, rest);
      && Says(text, "granulated_wavefront_sgpr_count", Granulated(s + 6, 8))
      && Says(text, "granulated_workitem_vgpr_count", Granulated(v, 4))
  {
    hide Granulated, Whole, Stated;
    CountNames(s, v, lds);
    Differ("granulated_wavefront_sgpr_count", "granulated_workitem_vgpr_count", 12);
    CountSaid(name, s, v, lds, rest, "granulated_wavefront_sgpr_count", 0);
    CountSaid(name, s, v, lds, rest, "granulated_workitem_vgpr_count", 1);
  }

  lemma {:induction false} BytesSaid(name: string, s: nat, v: nat, lds: int, rest: seq<Line>)
    ensures var text := Whole(name, s, v, lds, rest);
      Says(text, "kernarg_segment_byte_size", 24) && Says(text, "workgroup_group_segment_byte_size", lds)
  {
    hide Granulated, Whole, Stated;
    CountNames(s, v, lds);
    CountSaid(name, s, v, lds, rest, "kernarg_segment_byte_size", 5);
    CountSaid(name, s, v, lds, rest, "workgroup_group_segment_byte_size", 6);
  }

  lemma {:induction false} FlagSaid(name: string, rest: seq<Line>, x: string, k: nat)
    requires x != "" && x[0] != '.' && k < |CodeFlags()|
    requires Names(CodeFlags()[k], x) && forall i :: 0 <= i < k ==> !Names(CodeFlags()[i], x)
    ensures Stated(Front(name) + CodeFlags() + rest, x) == Some(CodeFlags()[k].text.values)
  {
    hide Front, CodeFlags;
    var a, text := Front(name), Front(name) + CodeFlags() + rest;
    forall i | 0 <= i < |a| + k ensures !Names(text[i], x) {
      if i < |a| {
        assert text[i] == a[i];
        FrontNames(name, i);
      } else {
        assert text[i] == CodeFlags()[i - |a|];
      }
    }
    assert text[|a| + k] == CodeFlags()[k];
    StatedAt(text, x, |a| + k);
  }

  lemma FlagLines()
    ensures |CodeFlags()| == 8
    ensures CodeFlags()[0].text == Directive(".amd_kernel_code_t", [])
    ensures CodeFlags()[1].text == Directive("enable_sgpr_kernarg_segment_ptr", [1])
    ensures CodeFlags()[2].text == Directive("enable_sgpr_workgroup_id_x", [1])
    ensures CodeFlags()[3].text == Directive("enable_sgpr_workgroup_id_y", [1])
    ensures CodeFlags()[4].text == Directive("enable_sgpr_workgroup_id_z", [1])
    ensures CodeFlags()[5].text == Directive("enable_vgpr_workitem_id", [2])
    ensures CodeFlags()[6].text == Directive("is_ptr64", [1]) && CodeFlags()[7].text == Directive("float_mode", [192])
  {
  }

  lemma {:induction false} ModesSaid(name: string, rest: seq<Line>)
    ensures var text := Front(name) + CodeFlags() + rest;
      Says(text, "enable_vgpr_workitem_id", 2) && Says(text, "is_ptr64", 1) && Says(text, "float_mode", 192)
  {
    hide Front, CodeFlags, Stated;
    FlagLines();
    Differ("enable_vgpr_workitem_id", "enable_sgpr_kernarg_segment_ptr", 7);
    Differ("enable_vgpr_workitem_id", "enable_sgpr_workgroup_id_x", 7);
    Differ("enable_vgpr_workitem_id", "enable_sgpr_workgroup_id_y", 7);
    Differ("enable_vgpr_workitem_id", "enable_sgpr_workgroup_id_z", 7);
    FlagSaid(name, rest, "enable_vgpr_workitem_id", 5);
    FlagSaid(name, rest, "is_ptr64", 6);
    FlagSaid(name, rest, "float_mode", 7);
  }

  lemma {:induction false} FlagsSaid(name: string, rest: seq<Line>)
    ensures var text := Front(name) + CodeFlags() + rest;
      && Says(text, "enable_sgpr_kernarg_segment_ptr", 1)
      && Says(text, "enable_sgpr_workgroup_id_x", 1) && Says(text, "enable_sgpr_workgroup_id_y", 1)
      && Says(text, "enable_sgpr_workgroup_id_z", 1)
  {
    hide Front, CodeFlags, Stated;
    FlagLines();
    FlagSaid(name, rest, "enable_sgpr_kernarg_segment_ptr", 1);
    Differ("enable_sgpr_kernarg_segment_ptr", "enable_sgpr_workgroup_id_x", 12);
    FlagSaid(name, rest, "enable_sgpr_workgroup_id_x", 2);
    Differ("enable_sgpr_kernarg_segment_ptr", "enable_sgpr_workgroup_id_y", 12);
    Differ("enable_sgpr_workgroup_id_x", "enable_sgpr_workgroup_id_y", 25);
    FlagSaid(name, rest, "enable_sgpr_workgroup_id_y", 3);
    Differ("enable_sgpr_kernarg_segment_ptr", "enable_sgpr_workgroup_id_z", 12);
    Differ("enable_sgpr_workgroup_id_x", "enable_sgpr_workgroup_id_z", 25);
    Differ("enable_sgpr_workgroup_id_y", "enable_sgpr_workgroup_id_z", 25);
    FlagSaid(name, rest, "enable_sgpr_workgroup_id_z", 4);
  }

  // ---------------------------------------------------------------------------------------------
  // The finished text
  // ---------------------------------------------------------------------------------------------

  /** What the code object of the finished text is followed by. */
  ghost function Rest(f: Gen, name: string, p: Program): seq<Line>
    requires IsFresh(f) && Generates(f, name, p)
  {
    [Line(0, Label("START_PROG"))] + Body(f, name, p)
  }

  lemma {:induction false} TextIsWhole(f: Gen, name: string, p: Program)
    requires IsFresh(f) && Generates(f, name, p)
    ensures var second := Second(f, name, p);
      second.text == Whole(name, second.sMax, second.vMax, First(f, name, p).lds, Rest(f, name, p))
  {
    hide Generates, First, Second, Body, Signature, CodeFlags, CodeCounts;
    TwoPasses(f, name, p);
  }

  /** The marks after both passes count at least the defaults. */
  lemma {:induction false} MarksHoldDefaults(f: Gen, name: string, p: Program)
    requires IsFresh(f) && Generates(f, name, p)
    ensures Second(f, name, p).sMax >= 5 && Second(f, name, p).vMax >= 2
  {
    hide Safe, Do, DoAll, SafeAll, Content, Second;
    DefaultsLie(f);
    TwoPasses(f, name, p);
    MarksOfFirst(f, name, p);
  }

  lemma {:induction false} MarksOfFirst(f: Gen, name: string, p: Program)
    requires IsFresh(f) && Generates(f, name, p)
    ensures CanBegin(f)
    ensures Begun(f, name).0.sMax <= First(f, name, p).sMax && Begun(f, name).0.vMax <= First(f, name, p).vMax
  {
    hide Begun, Content, Body, Header, Generates;
    Pass(f, f, [], 0, 0, 0, name, p);
  }

  /** The smallest number of granules that holds the registers, less one. */
  ghost predicate Granules(g: int, size: nat, count: int) {
    size * g < count <= size * (g + 1)
  }

  /** The registers the header reserves, in single registers and in granules: the scalar count has room for
      the six registers the hardware adds. */
  lemma {:induction false} HeaderReserves(f: Gen, name: string, p: Program)
    returns (scalars: nat, vectors: nat, scalarGranules: int, vectorGranules: int)
    requires IsFresh(f) && Generates(f, name, p)
    ensures var text := Second(f, name, p).text;
      && Says(text, "wavefront_sgpr_count", scalars) && Says(text, "workitem_vgpr_count", vectors)
      && Says(text, "granulated_wavefront_sgpr_count", scalarGranules)
      && Says(text, "granulated_workitem_vgpr_count", vectorGranules)
    ensures Granules(scalarGranules, 8, scalars) && Granules(vectorGranules, 4, vectors)
    ensures scalars == Second(f, name, p).sMax + 6 && vectors == Second(f, name, p).vMax
  {
    hide Generates, First, Second, Body, Whole, Stated, Rest, Granulated;
    TextIsWhole(f, name, p);
    MarksHoldDefaults(f, name, p);
    var second, lds, rest := Second(f, name, p), First(f, name, p).lds, Rest(f, name, p);
    scalars, vectors := second.sMax + 6, second.vMax;
    scalarGranules, vectorGranules := Granulated(scalars, 8), Granulated(vectors, 4);
    RegistersSaid(name, second.sMax, second.vMax, lds, rest);
    GranulesSaid(name, second.sMax, second.vMax, lds, rest);
    GranulesHold(scalars, 8);
    GranulesHold(vectors, 4);
  }

  /** Whatever register of an allocation the second pass prints, the header of its text reserves it: scalar
      register i with i + 6 below wavefront_sgpr_count, vector register i below workitem_vgpr_count. */
  lemma {:induction false} PrintedInHeader(f: Gen, name: string, p: Program, k: nat, ins: Instr, o: Opnd)
    requires IsFresh(f) && Generates(f, name, p) && k < p.steps
    requires var (h, rs) := During(f, name, p, k); p.next(rs) == Write(ins) && o in Printed(ins) && InUse(h, o)
    ensures var text := Second(f, name, p).text;
      && (o.S? ==> exists n :: Says(text, "wavefront_sgpr_count", n) && o.idx + 6 < n)
      && (o.V? ==> exists n :: Says(text, "workitem_vgpr_count", n) && o.idx < n)
  {
    hide Generates, Second, During, InUse, Printed, Stated;
    PrintedBelowHeader(f, name, p, k, ins, o);
    var scalars, vectors, _, _ := HeaderReserves(f, name, p);
  }

  /** What the text says of the registers the hardware fills: as many user registers as the kernel argument
      pointer is long, all three group ids, in this order; and the default variables lie there. */
  lemma {:induction false} DefaultsFilled(f: Gen, name: string, p: Program)
    returns (n: nat)
    requires IsFresh(f) && Generates(f, name, p)
    ensures var text := Second(f, name, p).text;
      var rs := During(f, name, p, 0).1;
      && |rs| == 6
      && Says(text, "enable_sgpr_kernarg_segment_ptr", 1) && rs[0] == Got(Some(Sgpr("s_kernelArg", 0, 2, 1)))
      && Says(text, "enable_sgpr_workgroup_id_x", 1) && Says(text, "enable_sgpr_workgroup_id_y", 1)
      && Says(text, "enable_sgpr_workgroup_id_z", 1) && Says(text, "enable_vgpr_workitem_id", 2)
      && Says(text, "user_sgpr_count", n) && n == rs[0].v.value.len
      && rs[1] == Got(Some(Sgpr("s_gid_x", n, 1, 1))) && rs[2] == Got(Some(Sgpr("s_gid_y", n + 1, 1, 1)))
      && rs[3] == Got(Some(Sgpr("s_gid_z", n + 2, 1, 1)))
      && rs[4] == Got(Some(Vgpr("v_tid_x", 0, 1, 1))) && rs[5] == Got(Some(Vgpr("v_tid_y", 1, 1, 1)))
  {
    hide Generates, First, Second, Body, Stated, Rest, Granulated, CodeFlags, Front, CodeCounts, DefaultReplies;
    TextIsWhole(f, name, p);
    var second, lds, rest := Second(f, name, p), First(f, name, p).lds, Rest(f, name, p);
    RegistersSaid(name, second.sMax, second.vMax, lds, rest);
    FlagsSaid(name, CodeCounts(second.sMax, second.vMax, lds) + rest);
    ModesSaid(name, CodeCounts(second.sMax, second.vMax, lds) + rest);
    WholeSplit(name, second.sMax, second.vMax, lds, rest);
    DuringStarts(f, name, p);
    n := 2;
  }

  lemma {:induction false} DuringStarts(f: Gen, name: string, p: Program)
    requires IsFresh(f) && Generates(f, name, p)
    ensures var rs := During(f, name, p, 0).1;
      && |rs| == 6
      && rs[0] == Got(Some(Sgpr("s_kernelArg", 0, 2, 1))) && rs[1] == Got(Some(Sgpr("s_gid_x", 2, 1, 1)))
      && rs[2] == Got(Some(Sgpr("s_gid_y", 3, 1, 1))) && rs[3] == Got(Some(Sgpr("s_gid_z", 4, 1, 1)))
      && rs[4] == Got(Some(Vgpr("v_tid_x", 0, 1, 1))) && rs[5] == Got(Some(Vgpr("v_tid_y", 1, 1, 1)))
  {
    hide Safe, Do, Content, SafeAll, Generates, Header;
    FirstPasses(f, name, p);
    DefaultsLie(Signed(First(f, name, p), name));
  }

  // ---------------------------------------------------------------------------------------------
  // What the program's calls write and ask for
  // ---------------------------------------------------------------------------------------------

  /** The lines, the indentation and the LDS bytes of the first n calls, read off the calls: call k is what
      the program does after the first `from` + k of the answers rs. */
  datatype Calls = Calls(lines: seq<Line>, tab: int, bytes: int)

  function CallsOf(p: Program, rs: seq<Reply>, from: nat, n: nat, tab: int): Calls
    requires from + n <= |rs|
  {
    if n == 0 then Calls([], tab, 0) else CallOn(CallsOf(p, rs, from, n - 1, tab), p.next(rs[..from + n - 1]))
  }

  function CallOn(c: Calls, d: Cmd): Calls {
    match d
    case Write(ins) => c.(lines := c.lines + [Line(c.tab, ins)])
    case WriteLaber(name) => c.(lines := c.lines + [Line(0, Label(name))])
    case Indent => c.(tab := c.tab + 1)
    case BackSpace => c.(tab := c.tab - 1)
    case SetTable(t) => c.(tab := t)
    case UseLds(bytes) => c.(bytes := c.bytes + bytes)
    case _ => c
  }

  lemma {:induction false} CallsPrefix(p: Program, rs: seq<Reply>, a: Reply, from: nat, n: nat, tab: int)
    requires from + n <= |rs|
    ensures CallsOf(p, rs + [a], from, n, tab) == CallsOf(p, rs, from, n, tab)
  {
    if n > 0 {
      CallsPrefix(p, rs, a, from, n - 1, tab);
      assert (rs + [a])[..from + n - 1] == rs[..from + n - 1];
    }
  }

  ghost predicate Reached(g: Gen, h: Gen, c: Calls) {
    h.text == g.text + c.lines && h.tab == c.tab && h.lds == g.lds + c.bytes
  }

  lemma DoneOne(g: Gen, h: Gen, c: Calls, d: Cmd)
    requires Reached(g, h, c) && Safe(h, d)
    ensures Reached(g, Do(h, d).0, CallOn(c, d))
  {
    hide Scan, Fill;
  }

  lemma {:induction false} CallsDone(g: Gen, p: Program, rs: seq<Reply>, n: nat)
    requires SafeAll(g, p, rs, n)
    ensures var (h, r) := DoAll(g, p, rs, n);
      |r| == |rs| + n && Reached(g, h, CallsOf(p, r, |rs|, n, g.tab))
  {
    hide Safe, Do, CallOn, Reached;
    if n > 0 {
      CallsDone(g, p, rs, n - 1);
      var (h, r) := DoAll(g, p, rs, n - 1);
      var a := Do(h, p.next(r)).1;
      CallsPrefix(p, r, a, |rs|, n - 1, g.tab);
      assert (r + [a])[..|rs| + n - 1] == r;
      DoneOne(g, h, CallsOf(p, r, |rs|, n - 1, g.tab), p.next(r));
    } else {
      NothingDone(g, rs, p);
    }
  }

  lemma NothingDone(g: Gen, rs: seq<Reply>, p: Program)
    ensures Reached(g, g, CallsOf(p, rs, |rs|, 0, g.tab))
  {
  }

  /** The program gets the same answers in both passes. */
  lemma {:induction false} SameAnswers(f: Gen, name: string, p: Program)
    requires IsFresh(f) && Generates(f, name, p)
    ensures CanBegin(f) && SafeAll(Begun(f, name).0, p, Begun(f, name).1, p.steps)
    ensures DoAll(Begun(f, name).0, p, Begun(f, name).1, p.steps).1 == During(f, name, p, p.steps).1
  {
    hide Safe, Do, Content, Similar, CanBegin, Begun, SafeAll, DoAll, Prepared, Signature;
    FirstPasses(f, name, p);
    var first := First(f, name, p);
    var g := Signed(first, name);
    SignedPrepared(first, name);
    FreshSimilar(f, g, Signature(name), first.sMax, first.vMax, first.lds);
    Fresh(f);
    BegunSimilar(f, g, Signature(name), first.sMax, first.vMax, first.lds, name);
    var b, h := Begun(f, name).0, Begun(g, name).0;
    AllSimilar(b, h, p, Begun(f, name).1, p.steps, b.text, h.text, first.sMax, first.vMax, first.lds);
  }

  lemma Fresh(f: Gen)
    requires IsFresh(f)
    ensures f.text == [] && f.lds == 0 && Prepared(f, [], 0, 0, 0)
  {
  }

  /** The LDS bytes a first pass ends with are those the calls ask for. */
  lemma {:induction false} BytesOfFirst(f: Gen, name: string, p: Program)
    requires IsFresh(f) && Generates(f, name, p)
    ensures var rs := During(f, name, p, p.steps).1;
      |rs| == 6 + p.steps && First(f, name, p).lds == CallsOf(p, rs, 6, p.steps, 1).bytes
  {
    hide Safe, Do, Header, SafeAll, DoAll, CallsOf, Footer, During;
    SameAnswers(f, name, p);
    var (b, rs) := Begun(f, name);
    CallsDone(b, p, rs, p.steps);
    Answers(f, Defaults(), [], 6);
    NoText(f, 6);
    Fresh(f);
  }

  /** The finished text: the signature and the kernel's label, the code object between its two brackets,
      the lines of the program's calls between START_PROG and END_PROG, and behind END_PROG the end of the
      program. The LDS line has the bytes the calls ask for. */
  lemma {:induction false} FinishedText(f: Gen, name: string, p: Program)
    requires IsFresh(f) && Generates(f, name, p)
    ensures var text := Second(f, name, p).text;
      var rs := During(f, name, p, p.steps).1;
      var n := |text|;
      && |rs| == 6 + p.steps && n >= 30
      && text[1].text == Directive(".hsa_code_object_isa", [9, 0, 0]) && text[3].text == Directive(".text", [])
      && text[4].text == Directive(".globl " + name, []) && text[5].text == Directive(".p2align", [8])
      && text[6].text == Directive(".type " + name + ",@function", [])
      && text[7].text == Directive(".amdgpu_hsa_kernel " + name, []) && text[9] == Line(0, Label(name))
      && text[10].text == Directive(".amd_kernel_code_t", [])
      && text[25].text == Directive(".end_amd_kernel_code_t", [])
      && text[27] == Line(0, Label("START_PROG"))
      && text[28..n - 2] == CallsOf(p, rs, 6, p.steps, 1).lines
      && text[n - 2] == Line(0, Label("END_PROG")) && text[n - 1] == Line(1, Directive("s_endpgm", []))
      && Says(text, "workgroup_group_segment_byte_size", CallsOf(p, rs, 6, p.steps, 1).bytes)
      && Says(text, "kernarg_segment_byte_size", 24) && Says(text, "is_ptr64", 1) && Says(text, "float_mode", 192)
  {
    hide Generates, First, Second, Body, Stated, Rest, Granulated, CodeFlags, Front, CodeCounts, During, CallsOf, Whole;
    TextIsWhole(f, name, p);
    BytesOfFirst(f, name, p);
    var second, lds, rest := Second(f, name, p), First(f, name, p).lds, Rest(f, name, p);
    BytesSaid(name, second.sMax, second.vMax, lds, rest);
    WholeLines(name, second.sMax, second.vMax, lds, rest);
    ModesSaid(name, CodeCounts(second.sMax, second.vMax, lds) + rest);
    WholeSplit(name, second.sMax, second.vMax, lds, rest);
    LinesBetween(f, name, p);
  }

  lemma WholeSplit(name: string, s: nat, v: nat, lds: int, rest: seq<Line>)
    ensures Whole(name, s, v, lds, rest) == Front(name) + CodeFlags() + (CodeCounts(s, v, lds) + rest)
  {
    hide Front, CodeFlags, CodeCounts;
  }

  lemma WholeLines(name: string, s: nat, v: nat, lds: int, rest: seq<Line>)
    ensures var text := Whole(name, s, v, lds, rest);
      && |text| == 27 + |rest|
      && text[1].text == Directive(".hsa_code_object_isa", [9, 0, 0]) && text[3].text == Directive(".text", [])
      && text[4].text == Directive(".globl " + name, []) && text[5].text == Directive(".p2align", [8])
      && text[6].text == Directive(".type " + name + ",@function", [])
      && text[7].text == Directive(".amdgpu_hsa_kernel " + name, []) && text[9] == Line(0, Label(name))
      && text[10].text == Directive(".amd_kernel_code_t", [])
      && text[25].text == Directive(".end_amd_kernel_code_t", [])
      && text[27..] == rest
  {
  }

  lemma {:induction false} LinesBetween(f: Gen, name: string, p: Program)
    requires IsFresh(f) && Generates(f, name, p)
    ensures var text := Second(f, name, p).text;
      var rs := During(f, name, p, p.steps).1;
      var n := |text|;
      && |rs| == 6 + p.steps && n >= 30 && text[27] == Line(0, Label("START_PROG"))
      && text[28..n - 2] == CallsOf(p, rs, 6, p.steps, 1).lines
      && text[n - 2] == Line(0, Label("END_PROG")) && text[n - 1] == Line(1, Directive("s_endpgm", []))
  {
    hide Safe, Do, SafeAll, DoAll, CallsOf, First;
    FirstPasses(f, name, p);
    var g := Signed(First(f, name, p), name);
    var (b, rs) := Begun(g, name);
    CallsDone(b, p, rs, p.steps);
    Answers(g, Defaults(), [], 6);
    NoText(g, 6);
    HeaderLength(name);
  }
}

/** Generating a kernel's text: what each call of the writer does to its state, and why the generator
    runs the whole program twice. */
module Generator {
  import opened Isa
  import opened Registers

  const MAX_SGPR := 800
  const MAX_VGPR := 256

  /** What newSgpr, newVgpr and newLaber return. */
  datatype Var =
    | Sgpr(name: string, idx: nat, len: nat, align: nat)
    | Vgpr(name: string, idx: nat, len: nat, align: nat)
    | Laber(name: string)
    | Off(name: string)

  datatype Line = Line(tab: int, text: Instr)

  /** The writer's state: the two register files with their marks, the LDS bytes, the indentation, and
      the text so far. */
  datatype Gen = Gen(s: seq<int>, v: seq<int>, sMax: nat, vMax: nat, lds: int, tab: int, text: seq<Line>)

  datatype Cmd =
    | NewSgpr(name: string, len: nat, align: nat)
    | NewVgpr(name: string, len: nat, align: nat)
    | DelVar(v: Var)
    | UseLds(bytes: int)
    | Write(ins: Instr)
    | WriteLaber(name: string)
    | Indent
    | BackSpace
    | SetTable(n: int)

  /** A program is any deterministic sequence of calls: each may depend on all the answers so far. */
  datatype Reply = Got(v: Option<Var>) | Done

  datatype Program = Program(next: seq<Reply> -> Cmd, steps: nat)

  predicate IsOff(name: string) {
    name == "off" || name == "OFF"
  }

  /** The array accesses of a call stay inside the arrays. */
  predicate Safe(g: Gen, c: Cmd) {
    match c
    case NewSgpr(name, len, align) => align > 0 && (IsOff(name) || Scan(g.s, len, align, 0) != Overrun)
    case NewVgpr(name, len, align) => align > 0 && (IsOff(name) || Scan(g.v, len, align, 0) != Overrun)
    case DelVar(Sgpr(_, i, len, _)) => i + len <= |g.s|
    case DelVar(Vgpr(_, i, len, _)) => i + len <= |g.v|
    case _ => true
  }

  function Do(g: Gen, c: Cmd): (Gen, Reply)
    requires Safe(g, c)
  {
    match c
    case NewSgpr(name, len, align) =>
      if IsOff(name) then (g, Got(Some(Off(name))))
      else
        (match Scan(g.s, len, align, 0)
         case Found(i) =>
           ScanInside(g.s, len, align);
           (g.(s := Fill(g.s, i, len, 1), sMax := Max(g.sMax, i + len)), Got(Some(Sgpr(name, i, len, align))))
         case _ => (g, Got(None)))
    case NewVgpr(name, len, align) =>
      if IsOff(name) then (g, Got(Some(Off(name))))
      else
        (match Scan(g.v, len, align, 0)
         case Found(i) =>
           ScanInside(g.v, len, align);
           (g.(v := Fill(g.v, i, len, 1), vMax := Max(g.vMax, i + len)), Got(Some(Vgpr(name, i, len, align))))
         case _ => (g, Got(None)))
    case DelVar(Sgpr(_, i, len, _)) => (g.(s := Fill(g.s, i, len, 0)), Done)
    case DelVar(Vgpr(_, i, len, _)) => (g.(v := Fill(g.v, i, len, 0)), Done)
    case DelVar(_) => (g, Done)
    case UseLds(bytes) => (g.(lds := g.lds + bytes), Done)
    case Write(ins) => (WithLine(g, ins), Done)
    case WriteLaber(name) => (g.(text := g.text + [Line(0, Label(name))]), Done)
    case Indent => (g.(tab := g.tab + 1), Done)
    case BackSpace => (g.(tab := g.tab - 1), Done)
    case SetTable(n) => (g.(tab := n), Done)
  }

  function WithLine(g: Gen, ins: Instr): Gen {
    g.(text := g.text + [Line(g.tab, ins)])
  }

  predicate SafeAll(g: Gen, p: Program, rs: seq<Reply>, n: nat)
    decreases n, 0
  {
    n == 0 || (SafeAll(g, p, rs, n - 1) && var (h, r) := DoAll(g, p, rs, n - 1); Safe(h, p.next(r)))
  }

  /** The first n calls of a program that has got the answers rs before. */
  function DoAll(g: Gen, p: Program, rs: seq<Reply>, n: nat): (Gen, seq<Reply>)
    requires SafeAll(g, p, rs, n)
    decreases n, 1
  {
    if n == 0 then (g, rs)
    else
      var (h, r) := DoAll(g, p, rs, n - 1);
      var (k, a) := Do(h, p.next(r));
      (k, r + [a])
  }

  // ---------------------------------------------------------------------------------------------
  // One pass
  // ---------------------------------------------------------------------------------------------

  /** initialDefaultGprs as a program of its own. */
  function Defaults(): Program {
    Program(rs => DefaultCmd(|rs|), 6)
  }

  function DefaultCmd(k: nat): Cmd {
    if k == 0 then NewSgpr("s_kernelArg", 2, 1)
    else if k == 1 then NewSgpr("s_gid_x", 1, 1)
    else if k == 2 then NewSgpr("s_gid_y", 1, 1)
    else if k == 3 then NewSgpr("s_gid_z", 1, 1)
    else if k == 4 then NewVgpr("v_tid_x", 1, 1)
    else NewVgpr("v_tid_y", 1, 1)
  }

  /** The number of granules of `size` registers the header gives: one less than needed. C++ division
      truncates towards zero. */
  function Granulated(count: int, size: nat): int
    requires size > 0
  {
    if count >= 1 then (count - 1) / size else -((1 - count) / size)
  }

  /** The code object: its lines print the marks and the LDS bytes as they are when it is written. */
  function CodeObject(sMax: nat, vMax: nat, lds: int): seq<Line> {
    CodeFlags() + CodeCounts(sMax, vMax, lds)
  }

  function CodeFlags(): seq<Line> {
    [Line(1, Directive(".amd_kernel_code_t", [])),
     Line(2, Directive("enable_sgpr_kernarg_segment_ptr", [1])),
     Line(2, Directive("enable_sgpr_workgroup_id_x", [1])),
     Line(2, Directive("enable_sgpr_workgroup_id_y", [1])),
     Line(2, Directive("enable_sgpr_workgroup_id_z", [1])),
     Line(2, Directive("enable_vgpr_workitem_id", [2])),
     Line(2, Directive("is_ptr64", [1])),
     Line(2, Directive("float_mode", [192]))]
  }

  function CodeCounts(sMax: nat, vMax: nat, lds: int): seq<Line> {
    [Line(2, Directive("granulated_wavefront_sgpr_count", [Granulated(sMax + 6, 8)])),
     Line(2, Directive("granulated_workitem_vgpr_count", [Granulated(vMax, 4)])),
     Line(2, Directive("user_sgpr_count", [2])),
     Line(2, Directive("wavefront_sgpr_count", [sMax + 6])),
     Line(2, Directive("workitem_vgpr_count", [vMax])),
     Line(2, Directive("kernarg_segment_byte_size", [24])),
     Line(2, Directive("workgroup_group_segment_byte_size", [lds])),
     Line(1, Directive(".end_amd_kernel_code_t", [])),
     Line(1, Directive("", []))]
  }

  function Header(name: string, sMax: nat, vMax: nat, lds: int): seq<Line> {
    [Line(0, Label(name))] + CodeObject(sMax, vMax, lds) + [Line(0, Label("START_PROG"))]
  }

  function Footer(): seq<Line> {
    [Line(0, Label("END_PROG")), Line(1, Directive("s_endpgm", []))]
  }

  predicate CanBegin(g: Gen) {
    SafeAll(g, Defaults(), [], 6)
  }

  predicate CanRun(g: Gen, p: Program, rs: seq<Reply>) {
    SafeAll(g, p, rs, p.steps)
  }

  /** After the defaults and the header. */
  function Begun(g: Gen, name: string): (Gen, seq<Reply>)
    requires CanBegin(g)
  {
    var (h, rs) := DoAll(g, Defaults(), [], 6);
    (h.(tab := 1, text := h.text + Header(name, h.sMax, h.vMax, h.lds)), rs)
  }

  predicate Generates(g: Gen, name: string, p: Program) {
    CanBegin(g) && CanRun(Begun(g, name).0, p, Begun(g, name).1)
  }

  /** When the program has made its last call. */
  function Left(g: Gen, name: string, p: Program): Gen
    requires Generates(g, name, p)
  {
    Ran(Begun(g, name).0, p, Begun(g, name).1)
  }

  function Ran(g: Gen, p: Program, rs: seq<Reply>): Gen
    requires CanRun(g, p, rs)
  {
    DoAll(g, p, rs, p.steps).0
  }

  /** writeContent: defaults, header, program, footer; then all registers are free again. */
  function Content(g: Gen, name: string, p: Program): Gen
    requires Generates(g, name, p)
  {
    var k := Left(g, name, p);
    k.(tab := 1, text := k.text + Footer(), s := Fill(k.s, 0, |k.s|, 0), v := Fill(k.v, 0, |k.v|, 0))
  }

  function Signature(name: string): seq<Line> {
    [Line(0, Directive(".hsa_code_object_version", [2, 1])),
     Line(0, Directive(".hsa_code_object_isa", [9, 0, 0])),
     Line(0, Directive("", [])),
     Line(0, Directive(".text", [])),
     Line(0, Directive(".globl " + name, [])),
     Line(0, Directive(".p2align", [8])),
     Line(0, Directive(".type " + name + ",@function", [])),
     Line(0, Directive(".amdgpu_hsa_kernel " + name, [])),
     Line(0, Directive("", []))]
  }

  /** The second pass starts from an empty text and the signature. */
  function Signed(g: Gen, name: string): Gen {
    g.(tab := 0, text := Signature(name))
  }

  function Emptied(g: Gen): Gen {
    g.(text := [])
  }

  predicate CanGenerate(g: Gen, name: string, p: Program) {
    && Generates(Emptied(g), name, p)
    && Generates(Signed(Content(Emptied(g), name, p), name), name, p)
  }

  /** GenKernelString. */
  function Generated(g: Gen, name: string, p: Program): Gen
    requires CanGenerate(g, name, p)
  {
    Content(Signed(Content(Emptied(g), name, p), name), name, p)
  }

  lemma {:induction false} Answers(g: Gen, p: Program, rs: seq<Reply>, n: nat)
    requires SafeAll(g, p, rs, n)
    ensures |DoAll(g, p, rs, n).1| == |rs| + n
  {
    hide Safe, Do;
    if n > 0 { Answers(g, p, rs, n - 1); }
  }

  // ---------------------------------------------------------------------------------------------
  // The two register files
  // ---------------------------------------------------------------------------------------------

  ghost predicate SameFiles(g: Gen, s: File, v: File) {
    g.s == s.cells && g.sMax == s.countMax && g.v == v.cells && g.vMax == v.countMax
  }

  /** newSgpr and newVgpr are requests to a register file: they are safe exactly when the file allows
      them, and the variable returned has the span the file has recorded. */
  lemma NewIsRequest(g: Gen, s: File, v: File, name: string, len: nat, align: nat)
    requires SameFiles(g, s, v) && !IsOff(name)
    ensures Safe(g, NewSgpr(name, len, align)) <==> Allowed(s, New(len, align))
    ensures Safe(g, NewVgpr(name, len, align)) <==> Allowed(v, New(len, align))
    ensures Allowed(s, New(len, align)) ==>
      var (h, r) := Do(g, NewSgpr(name, len, align));
      var s' := Serve(s, New(len, align));
      && SameFiles(h, s', v)
      && (match r
          case Got(Some(Sgpr(_, i, n, a))) => s'.live == s.live[s.made := Span(i, n, a)]
          case _ => r == Got(None) && s' == s)
    ensures Allowed(v, New(len, align)) ==>
      var (h, r) := Do(g, NewVgpr(name, len, align));
      var v' := Serve(v, New(len, align));
      && SameFiles(h, s, v')
      && (match r
          case Got(Some(Vgpr(_, i, n, a))) => v'.live == v.live[v.made := Span(i, n, a)]
          case _ => r == Got(None) && v' == v)
  {
    hide Scan, Fill;
  }

  /** delVar on a variable of the file is the request to release it. */
  lemma DelIsRequest(g: Gen, s: File, v: File, name: string, id: nat)
    requires SameFiles(g, s, v)
    ensures id in s.live && Allowed(s, Del(id)) ==>
      var x := Sgpr(name, s.live[id].idx, s.live[id].len, s.live[id].align);
      Safe(g, DelVar(x)) && SameFiles(Do(g, DelVar(x)).0, Serve(s, Del(id)), v)
    ensures id in v.live && Allowed(v, Del(id)) ==>
      var x := Vgpr(name, v.live[id].idx, v.live[id].len, v.live[id].align);
      Safe(g, DelVar(x)) && SameFiles(Do(g, DelVar(x)).0, s, Serve(v, Del(id)))
  {
    hide Scan, Fill;
  }

  // ---------------------------------------------------------------------------------------------
  // Runs that differ only in what no answer depends on
  // ---------------------------------------------------------------------------------------------

  /** Two states with the same registers and indentation. h has hs, hv as floors of its marks, dl more
      LDS bytes, and has added to the text ht what g has added to gt. */
  ghost predicate Similar(g: Gen, h: Gen, gt: seq<Line>, ht: seq<Line>, hs: nat, hv: nat, dl: int) {
    && h.s == g.s && h.v == g.v && h.tab == g.tab
    && gt <= g.text && h.text == ht + g.text[|gt|..]
    && h.sMax == Max(hs, g.sMax) && h.vMax == Max(hv, g.vMax) && h.lds == g.lds + dl
  }

  lemma DoSimilar(g: Gen, h: Gen, c: Cmd, gt: seq<Line>, ht: seq<Line>, hs: nat, hv: nat, dl: int)
    requires Similar(g, h, gt, ht, hs, hv, dl) && Safe(g, c)
    ensures Safe(h, c) && Do(h, c).1 == Do(g, c).1 && Similar(Do(g, c).0, Do(h, c).0, gt, ht, hs, hv, dl)
  {
    hide Scan, Fill;
    if c.Write? || c.WriteLaber? {
      var l := if c.Write? then Line(g.tab, c.ins) else Line(0, Label(c.name));
      assert (g.text + [l])[|gt|..] == g.text[|gt|..] + [l];
    }
  }

  lemma {:induction false} AllSimilar(g: Gen, h: Gen, p: Program, rs: seq<Reply>, n: nat,
                                      gt: seq<Line>, ht: seq<Line>, hs: nat, hv: nat, dl: int)
    requires Similar(g, h, gt, ht, hs, hv, dl) && SafeAll(g, p, rs, n)
    ensures SafeAll(h, p, rs, n) && DoAll(h, p, rs, n).1 == DoAll(g, p, rs, n).1
    ensures Similar(DoAll(g, p, rs, n).0, DoAll(h, p, rs, n).0, gt, ht, hs, hv, dl)
  {
    hide Safe, Do, Similar;
    if n > 0 {
      AllSimilar(g, h, p, rs, n - 1, gt, ht, hs, hv, dl);
      var (a, r) := DoAll(g, p, rs, n - 1);
      DoSimilar(a, DoAll(h, p, rs, n - 1).0, p.next(r), gt, ht, hs, hv, dl);
    }
  }

  /** Marks never fall and file sizes never change; a taken register lies below its mark. */
  ghost predicate Marked(g: Gen) {
    && (forall r :: 0 <= r < |g.s| && g.s[r] != 0 ==> r < g.sMax)
    && (forall r :: 0 <= r < |g.v| && g.v[r] != 0 ==> r < g.vMax)
  }

  ghost predicate Grown(g: Gen, h: Gen) {
    |h.s| == |g.s| && |h.v| == |g.v| && g.sMax <= h.sMax && g.vMax <= h.vMax && g.text <= h.text
  }

  lemma DoGrows(g: Gen, c: Cmd)
    requires Safe(g, c)
    ensures Grown(g, Do(g, c).0) && (Marked(g) ==> Marked(Do(g, c).0))
  {
    hide Scan;
  }

  lemma {:induction false} AllGrows(g: Gen, p: Program, rs: seq<Reply>, n: nat)
    requires SafeAll(g, p, rs, n)
    ensures Grown(g, DoAll(g, p, rs, n).0) && (Marked(g) ==> Marked(DoAll(g, p, rs, n).0))
  {
    hide Safe, Do, Marked;
    if n > 0 {
      AllGrows(g, p, rs, n - 1);
      var (h, r) := DoAll(g, p, rs, n - 1);
      DoGrows(h, p.next(r));
    }
  }

  lemma {:induction false} GrowsOn(g: Gen, p: Program, rs: seq<Reply>, k: nat, n: nat)
    requires SafeAll(g, p, rs, n) && k <= n
    ensures SafeAll(g, p, rs, k) && Grown(DoAll(g, p, rs, k).0, DoAll(g, p, rs, n).0)
  {
    hide Safe, Do;
    if k < n {
      GrowsOn(g, p, rs, k, n - 1);
      var (h, r) := DoAll(g, p, rs, n - 1);
      DoGrows(h, p.next(r));
    }
  }

  // ---------------------------------------------------------------------------------------------
  // Two passes
  // ---------------------------------------------------------------------------------------------

  ghost predicate AllZero(cells: seq<int>, n: nat) {
    |cells| == n && forall r :: 0 <= r < n ==> cells[r] == 0
  }

  /** Before a pass: all registers free, no indentation, marks hs and hv, dl LDS bytes, the text ht. */
  ghost predicate Prepared(g: Gen, ht: seq<Line>, hs: nat, hv: nat, dl: int) {
    && AllZero(g.s, MAX_SGPR) && AllZero(g.v, MAX_VGPR) && g.tab == 0
    && g.sMax == hs && g.vMax == hv && g.lds == dl && g.text == ht
  }

  /** How the writer is constructed. */
  ghost predicate IsFresh(f: Gen) {
    Prepared(f, [], 0, 0, 0)
  }

  /** What the program and the footer write: what is left of a first pass without the header. */
  ghost function Body(f: Gen, name: string, p: Program): seq<Line>
    requires IsFresh(f) && Generates(f, name, p)
  {
    HeaderFirst(f, name, p);
    Content(f, name, p).text[|Header(name, 0, 0, 0)|..]
  }

  lemma {:induction false} HeaderFirst(f: Gen, name: string, p: Program)
    requires IsFresh(f) && Generates(f, name, p)
    ensures CanBegin(f) && Begun(f, name).0.text <= Content(f, name, p).text
    ensures |Begun(f, name).0.text| == |Header(name, 0, 0, 0)|
  {
    hide Do, Safe, Header;
    AllGrows(Begun(f, name).0, p, Begun(f, name).1, p.steps);
    NoText(f, 6);
    HeaderLength(name);
  }

  lemma HeaderLength(name: string)
    ensures forall s: nat, v: nat, l: int :: |Header(name, s, v, l)| == 19
  {
  }

  /** The defaults write nothing. */
  lemma {:induction false} NoText(g: Gen, n: nat)
    requires SafeAll(g, Defaults(), [], n)
    ensures DoAll(g, Defaults(), [], n).0.text == g.text && DoAll(g, Defaults(), [], n).0.lds == g.lds
  {
    hide Scan, Fill;
    if n > 0 { NoText(g, n - 1); }
  }

  ghost predicate Headed(b: Gen, h: Gen, ht: seq<Line>, hs: nat, hv: nat, dl: int, name: string) {
    h.text == ht + Header(name, Max(hs, b.sMax), Max(hv, b.vMax), dl)
  }

  ghost predicate SameTail(b: Gen, h: Gen, k: Gen, l: Gen) {
    b.text <= k.text && l.text + Footer() == h.text + (k.text + Footer())[|b.text|..]
  }

  lemma {:induction false} BegunSimilar(f: Gen, g: Gen, ht: seq<Line>, hs: nat, hv: nat, dl: int, name: string)
    requires Similar(f, g, [], ht, hs, hv, dl) && CanBegin(f) && f.text == [] && g.text == ht
    ensures CanBegin(g) && Begun(g, name).1 == Begun(f, name).1
    ensures var b, h := Begun(f, name).0, Begun(g, name).0;
      Similar(b, h, b.text, h.text, hs, hv, dl) && Headed(b, h, ht, hs, hv, f.lds + dl, name)
  {
    hide Do, Safe, Header;
    AllSimilar(f, g, Defaults(), [], 6, [], ht, hs, hv, dl);
    NoText(f, 6);
    NoText(g, 6);
  }

  /** What a pass writes behind its header is the same when it starts from a similar state. */
  lemma SameBody(b: Gen, h: Gen, p: Program, rs: seq<Reply>, hs: nat, hv: nat, dl: int)
    requires Similar(b, h, b.text, h.text, hs, hv, dl) && CanRun(b, p, rs)
    ensures CanRun(h, p, rs)
    ensures var k, l := Ran(b, p, rs), Ran(h, p, rs);
      && SameTail(b, h, k, l)
      && Similar(k, l, b.text, h.text, hs, hv, dl) && |k.s| == |b.s| && |k.v| == |b.v| && b.sMax <= k.sMax &&
        b.vMax <= k.vMax
  {
    hide Do, Safe, Footer;
    AllSimilar(b, h, p, rs, p.steps, b.text, h.text, hs, hv, dl);
    AllGrows(b, p, rs, p.steps);
    var k := Ran(b, p, rs);
    assert (k.text + Footer())[|b.text|..] == k.text[|b.text|..] + Footer();
  }

  lemma Zeroed(cells: seq<int>)
    ensures Fill(cells, 0, |cells|, 0) == seq(|cells|, _ => 0)
  {
  }

  lemma ContentIs(g: Gen, name: string, p: Program)
    requires Generates(g, name, p)
    ensures Ended(Left(g, name, p), Content(g, name, p))
  {
    hide Left, Generates, Footer;
    Zeroed(Left(g, name, p).s);
    Zeroed(Left(g, name, p).v);
  }

  ghost predicate PassFrom(f: Gen, b: Gen, c: Gen, ht: seq<Line>, hs: nat, hv: nat, dl: int, name: string,
                           body: seq<Line>) {
    && c.text == ht + Header(name, Max(hs, b.sMax), Max(hv, b.vMax), dl) + body
    && c.sMax == Max(hs, f.sMax) && c.vMax == Max(hv, f.vMax) && c.lds == f.lds + dl
    && AllZero(c.s, MAX_SGPR) && AllZero(c.v, MAX_VGPR) && b.sMax <= f.sMax && b.vMax <= f.vMax
  }

  ghost predicate PassSimilar(b: Gen, h: Gen, k: Gen, l: Gen, ht: seq<Line>, hs: nat, hv: nat, dl: int, name: string) {
    && Headed(b, h, ht, hs, hv, dl, name) && SameTail(b, h, k, l) && Similar(k, l, b.text, h.text, hs, hv, dl)
    && |k.s| == |b.s| == MAX_SGPR && |k.v| == |b.v| == MAX_VGPR && b.sMax <= k.sMax && b.vMax <= k.vMax
  }

  lemma {:induction false} SimilarPass(f: Gen, g: Gen, ht: seq<Line>, hs: nat, hv: nat, dl: int, name: string,
                                       p: Program)
    requires Generates(f, name, p) && Similar(f, g, [], ht, hs, hv, dl) && f.text == [] && g.text == ht && f.lds == 0
    requires |f.s| == MAX_SGPR && |f.v| == MAX_VGPR
    ensures CanBegin(g) && CanBegin(f) && Generates(g, name, p)
    ensures PassSimilar(Begun(f, name).0, Begun(g, name).0, Left(f, name, p), Left(g, name, p), ht, hs, hv, dl, name)
  {
    hide CanBegin, CanRun, Ran, Begun, Similar, Marked, Headed, SameTail;
    BegunSimilar(f, g, ht, hs, hv, dl, name);
    BegunGrows(f, name);
    SameBody(Begun(f, name).0, Begun(g, name).0, p, Begun(f, name).1, hs, hv, dl);
  }

  lemma {:induction false} LeftSimilar(f: Gen, g: Gen, ht: seq<Line>, hs: nat, hv: nat, dl: int, name: string,
                                       p: Program)
    requires IsFresh(f) && Generates(f, name, p) && Prepared(g, ht, hs, hv, dl)
    ensures Generates(g, name, p) && CanBegin(f) && CanBegin(g)
    ensures PassSimilar(Begun(f, name).0, Begun(g, name).0, Left(f, name, p), Left(g, name, p), ht, hs, hv, dl, name)
  {
    FreshSimilar(f, g, ht, hs, hv, dl);
    hide Similar, PassSimilar, Generates, CanBegin, Left, Begun;
    SimilarPass(f, g, ht, hs, hv, dl, name, p);
  }

  /** A pass, whatever the marks, the LDS bytes and the text it starts with. */
  lemma {:induction false} Pass(f: Gen, g: Gen, ht: seq<Line>, hs: nat, hv: nat, dl: int, name: string, p: Program)
    requires IsFresh(f) && Generates(f, name, p) && Prepared(g, ht, hs, hv, dl)
    ensures Generates(g, name, p) && CanBegin(f)
    ensures PassFrom(Content(f, name, p), Begun(f, name).0, Content(g, name, p), ht, hs, hv, dl, name, Body(f, name, p))
  {
    hide Generates, CanBegin, Header, Begun, Footer, Content, Prepared, PassFrom, PassSimilar, Body, Left, Ended;
    LeftSimilar(f, g, ht, hs, hv, dl, name, p);
    ContentIs(f, name, p);
    ContentIs(g, name, p);
    BodyIs(f, name, p);
    PassEnds(Begun(f, name).0, Begun(g, name).0, Left(f, name, p), Left(g, name, p),
             Content(f, name, p), Content(g, name, p), ht, hs, hv, dl, name, Body(f, name, p));
  }

  lemma {:induction false} BodyIs(f: Gen, name: string, p: Program)
    requires IsFresh(f) && Generates(f, name, p)
    ensures CanBegin(f) && |Begun(f, name).0.text| <= |Content(f, name, p).text|
    ensures Content(f, name, p).text[|Begun(f, name).0.text|..] == Body(f, name, p)
  {
    hide Content, Header, Begun;
    HeaderFirst(f, name, p);
  }

  /** What a pass makes of the state k in which the program left it. */
  ghost predicate Ended(k: Gen, c: Gen) {
    && c.text == k.text + Footer() && c.sMax == k.sMax && c.vMax == k.vMax && c.lds == k.lds
    && c.s == seq(|k.s|, _ => 0) && c.v == seq(|k.v|, _ => 0)
  }

  lemma PassEnds(b: Gen, h: Gen, k: Gen, l: Gen, f: Gen, c: Gen, ht: seq<Line>, hs: nat, hv: nat, dl: int,
                 name: string, body: seq<Line>)
    requires PassSimilar(b, h, k, l, ht, hs, hv, dl, name)
    requires Ended(k, f) && Ended(l, c) && |b.text| <= |f.text| && body == f.text[|b.text|..]
    ensures PassFrom(f, b, c, ht, hs, hv, dl, name, body)
  {
    hide Header, Footer;
  }

  lemma FreshSimilar(f: Gen, g: Gen, ht: seq<Line>, hs: nat, hv: nat, dl: int)
    requires IsFresh(f) && Prepared(g, ht, hs, hv, dl)
    ensures Similar(f, g, [], ht, hs, hv, dl)
  {
    assert f.s == g.s && f.v == g.v;
  }

  lemma BegunGrows(g: Gen, name: string)
    requires CanBegin(g)
    ensures Grown(g, Begun(g, name).0) && (Marked(g) ==> Marked(Begun(g, name).0))
  {
    hide Do, Safe, Header;
    AllGrows(g, Defaults(), [], 6);
  }

  /** The writer's state after the first, the second, and a third pass. */
  function First(f: Gen, name: string, p: Program): Gen
    requires Generates(f, name, p)
  {
    Content(f, name, p)
  }

  ghost function Second(f: Gen, name: string, p: Program): Gen
    requires IsFresh(f) && Generates(f, name, p)
  {
    FirstPasses(f, name, p);
    Content(Signed(First(f, name, p), name), name, p)
  }

  ghost function Third(f: Gen, name: string, p: Program): Gen
    requires IsFresh(f) && Generates(f, name, p)
  {
    SecondPasses(f, name, p);
    Content(Signed(Second(f, name, p), name), name, p)
  }

  lemma {:induction false} FirstPasses(f: Gen, name: string, p: Program)
    requires IsFresh(f) && Generates(f, name, p)
    ensures AllZero(First(f, name, p).s, MAX_SGPR) && AllZero(First(f, name, p).v, MAX_VGPR) && CanBegin(f)
    ensures Generates(Signed(First(f, name, p), name), name, p)
  {
    hide Generates, Content, Body, Begun;
    Pass(f, f, [], 0, 0, 0, name, p);
    var first := First(f, name, p);
    SignedPrepared(first, name);
    Pass(f, Signed(first, name), Signature(name), first.sMax, first.vMax, first.lds, name, p);
  }

  lemma {:induction false} SecondPasses(f: Gen, name: string, p: Program)
    requires IsFresh(f) && Generates(f, name, p)
    ensures CanBegin(f)
    ensures var first := First(f, name, p);
      PassFrom(first, Begun(f, name).0, Second(f, name, p), Signature(name), first.sMax, first.vMax, first.lds, name,
        Body(f, name, p))
    ensures Generates(Signed(Second(f, name, p), name), name, p)
  {
    hide Generates, Content, Body, Begun, Signature;
    FirstPasses(f, name, p);
    var first := First(f, name, p);
    SignedPrepared(first, name);
    Pass(f, Signed(first, name), Signature(name), first.sMax, first.vMax, first.lds, name, p);
    var second := Second(f, name, p);
    SignedPrepared(second, name);
    Pass(f, Signed(second, name), Signature(name), second.sMax, second.vMax, second.lds, name, p);
  }

  /** GenKernelString: a pass, an emptied text, the signature, another pass. The second pass writes the
      body of the first again, under a header with the marks and the LDS bytes of a whole run. */
  lemma {:induction false} TwoPasses(f: Gen, name: string, p: Program)
    requires IsFresh(f) && Generates(f, name, p)
    ensures var first, second := First(f, name, p), Second(f, name, p);
      && second.text == Signature(name) + Header(name, second.sMax, second.vMax, first.lds) + Body(f, name, p)
      && second.sMax == first.sMax && second.vMax == first.vMax
  {
    hide Generates, Content, Body, Begun, Signature, Header;
    SecondPasses(f, name, p);
  }

  /** A new writer can make the second pass whenever it can make the first, and its text is that of the
      second pass. */
  lemma {:induction false} FreshGenerates(f: Gen, name: string, p: Program)
    requires IsFresh(f) && Generates(f, name, p)
    ensures CanGenerate(f, name, p) && Generated(f, name, p) == Second(f, name, p)
  {
    hide Generates, Content, Signed;
    FirstPasses(f, name, p);
    assert Emptied(f) == f;
  }

  /** A third pass would write the same text exactly when the program uses no LDS: the count of LDS
      bytes is never reset. */
  lemma {:induction false} ThirdPass(f: Gen, name: string, p: Program)
    requires IsFresh(f) && Generates(f, name, p)
    ensures Third(f, name, p).text == Second(f, name, p).text <==> First(f, name, p).lds == 0
  {
    hide Generates, Content, Body, Begun, Signature, Header;
    SecondPasses(f, name, p);
    var first, second := First(f, name, p), Second(f, name, p);
    SignedPrepared(second, name);
    Pass(f, Signed(second, name), Signature(name), second.sMax, second.vMax, second.lds, name, p);
    HeaderLds(name, second.sMax, second.vMax, first.lds, second.lds, Signature(name), Body(f, name, p));
  }

  lemma SignedPrepared(c: Gen, name: string)
    requires AllZero(c.s, MAX_SGPR) && AllZero(c.v, MAX_VGPR)
    ensures Prepared(Signed(c, name), Signature(name), c.sMax, c.vMax, c.lds)
  {
    hide Signature;
  }

  /** The header shows the LDS bytes. */
  lemma HeaderLds(name: string, s: nat, v: nat, x: int, y: int, t: seq<Line>, b: seq<Line>)
    ensures t + Header(name, s, v, x) + b == t + Header(name, s, v, y) + b <==> x == y
  {
    var i := |t| + 15;
    assert (t + Header(name, s, v, x) + b)[i] == Line(2, Directive("workgroup_group_segment_byte_size", [x]));
    assert (t + Header(name, s, v, y) + b)[i] == Line(2, Directive("workgroup_group_segment_byte_size", [y]));
  }

  ghost predicate InUse(g: Gen, o: Opnd) {
    match o
    case S(r) => r < |g.s| && g.s[r] != 0
    case V(r) => r < |g.v| && g.v[r] != 0
    case _ => true
  }

  ghost predicate Within(o: Opnd, sCount: nat, vCount: nat) {
    match o
    case S(r) => r < sCount
    case V(r) => r < vCount
    case _ => true
  }

  /** The state and the answers when the second pass has made k calls of the program. */
  ghost function During(f: Gen, name: string, p: Program, k: nat): (Gen, seq<Reply>)
    requires IsFresh(f) && Generates(f, name, p) && k <= p.steps
  {
    FirstPasses(f, name, p);
    var (b, rs) := Begun(Signed(First(f, name, p), name), name);
    GrowsOn(b, p, rs, k, p.steps);
    DoAll(b, p, rs, k)
  }

  /** Whatever register of an allocation the program prints in the second pass, its index is below the
      counts in the header. */
  lemma {:induction false} PrintedBelowHeader(f: Gen, name: string, p: Program, k: nat, ins: Instr, o: Opnd)
    requires IsFresh(f) && Generates(f, name, p) && k < p.steps
    requires var (h, rs) := During(f, name, p, k); p.next(rs) == Write(ins) && o in Printed(ins) && InUse(h, o)
    ensures Within(o, Second(f, name, p).sMax, Second(f, name, p).vMax)
  {
    hide Content, Begun, Safe, Do, Printed, DoAll, SafeAll, First;
    FirstPasses(f, name, p);
    var g := Signed(First(f, name, p), name);
    SignedPrepared(First(f, name, p), name);
    PreparedMarked(g, Signature(name), g.sMax, g.vMax, g.lds);
    BegunGrows(g, name);
    var (b, rs) := Begun(g, name);
    GrowsOn(b, p, rs, k, p.steps);
    AllGrows(b, p, rs, k);
    ContentIs(g, name, p);
  }

  lemma PreparedMarked(g: Gen, ht: seq<Line>, hs: nat, hv: nat, dl: int)
    requires Prepared(g, ht, hs, hv, dl)
    ensures Marked(g)
  {
  }

  /** The granule counts: the smallest number of granules that holds the registers, less one. */
  lemma GranulesHold(count: nat, size: nat)
    requires size > 0 && count >= 1
    ensures var g := Granulated(count, size); size * g < count <= size * g + size
  {
  }
}

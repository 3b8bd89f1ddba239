/** Packing kernel arguments: one pass computes the size of the block, a second one fills it. */
module KernArg {
  import opened Registers
  import opened Words

  newtype byte = x: int | 0 <= x < 256

  /** An argument and what its pointer points to; None is a null pointer. */
  datatype Arg = Arg(bytes: nat, content: Option<seq<byte>>)

  /** Sizes are positive, since they are divisors, and contents have their sizes. */
  predicate WellFormed(args: seq<Arg>) {
    forall i :: 0 <= i < |args| ==>
      args[i].bytes > 0 && (args[i].content.Some? ==> |args[i].content.value| == args[i].bytes)
  }

  predicate Sized(args: seq<Arg>) {
    forall i :: 0 <= i < |args| ==> args[i].bytes > 0
  }

  /** The next multiple of align. */
  function AlignUp(offset: nat, align: nat): nat
    requires align > 0
  {
    Times(align, (offset + align - 1) / align)
  }

  ghost predicate Multiple(m: nat, align: nat)
    requires align > 0
  {
    m % align == 0
  }

  lemma {:induction false} AlignUpIsLeast(offset: nat, align: nat)
    requires align > 0
    ensures var a := AlignUp(offset, align);
      && Multiple(a, align) && offset <= a < offset + align
      && forall m: nat :: Multiple(m, align) && offset <= m ==> a <= m
  {
    var q := RoundedUp(offset, align);
    hide Times, Multiple, AlignUp;
    IsMultiple(align, q);
    forall m: nat | Multiple(m, align) && offset <= m ensures Times(align, q) <= m {
      var p := Divided(m, align);
      if p < q { TimesOrder(align, p, q); }
    }
  }

  lemma RoundedUp(offset: nat, align: nat) returns (q: nat)
    requires align > 0
    ensures AlignUp(offset, align) == Times(align, q) && offset <= Times(align, q) < offset + align
  {
    q := (offset + align - 1) / align;
    DivParts(offset + align - 1, align);
  }

  lemma Divided(m: nat, n: nat) returns (p: nat)
    requires n > 0 && Multiple(m, n)
    ensures m == Times(n, p)
  {
    p := m / n;
    DivParts(m, n);
  }

  lemma {:induction false} IsMultiple(n: nat, q: nat)
    requires n > 0
    ensures Multiple(Times(n, q), n)
  {
    DivIs(n * q, n, q, 0);
  }

  /** Where the first n arguments end. */
  function EndOf(args: seq<Arg>, n: nat): nat
    requires Sized(args) && n <= |args|
    decreases n, 0
  {
    if n == 0 then 0 else StartOf(args, n - 1) + args[n - 1].bytes
  }

  /** Where argument i lies. */
  function StartOf(args: seq<Arg>, i: nat): nat
    requires Sized(args) && i < |args|
    decreases i, 1
  {
    AlignUp(EndOf(args, i), args[i].bytes)
  }

  /** Arguments are aligned to their size and never overlap. */
  lemma {:induction false} InOrder(args: seq<Arg>, i: nat, n: nat)
    requires Sized(args) && i < n <= |args|
    ensures Multiple(StartOf(args, i), args[i].bytes)
    ensures EndOf(args, i) <= StartOf(args, i) && StartOf(args, i) + args[i].bytes <= EndOf(args, n)
  {
    hide AlignUp, Multiple;
    AlignUpIsLeast(EndOf(args, i), args[i].bytes);
    if i + 1 < n {
      InOrder(args, i, n - 1);
      AlignUpIsLeast(EndOf(args, n - 1), args[n - 1].bytes);
    }
  }

  lemma NoOverlap(args: seq<Arg>, i: nat, k: nat)
    requires Sized(args) && i < k < |args|
    ensures StartOf(args, i) + args[i].bytes <= StartOf(args, k)
  {
    hide AlignUp;
    InOrder(args, i, k);
    InOrder(args, k, k + 1);
  }

  function Sum(args: seq<Arg>, n: nat): nat
    requires n <= |args|
  {
    if n == 0 then 0 else Sum(args, n - 1) + args[n - 1].bytes
  }

  /** The block is at least as long as its arguments, and each wastes less than its own size. */
  lemma {:induction false} SizeBounds(args: seq<Arg>, n: nat)
    requires Sized(args) && n <= |args|
    ensures Sum(args, n) <= EndOf(args, n) <= 2 * Sum(args, n) - n
  {
    hide AlignUp, Multiple;
    if n > 0 {
      SizeBounds(args, n - 1);
      AlignUpIsLeast(EndOf(args, n - 1), args[n - 1].bytes);
    }
  }

  /** It is exactly as long exactly when every argument starts where the one before ends. */
  lemma {:induction false} NoPadding(args: seq<Arg>, n: nat)
    requires Sized(args) && n <= |args|
    ensures EndOf(args, n) == Sum(args, n) <==> forall i :: 0 <= i < n ==> Multiple(EndOf(args, i), args[i].bytes)
  {
    hide AlignUp, Multiple;
    if n > 0 {
      NoPadding(args, n - 1);
      SizeBounds(args, n - 1);
      AlignUpIsLeast(EndOf(args, n - 1), args[n - 1].bytes);
    }
  }

  /** Round the offset up, copy when there is both a block and a content, and move on. */
  method AlignedCopyKernarg(kernarg: array?<byte>, ptr: Option<seq<byte>>, size: nat, align: nat, offset: nat)
    returns (next: nat)
    requires align > 0
    requires kernarg != null && ptr.Some? ==> |ptr.value| == size && AlignUp(offset, align) + size <= kernarg.Length
    modifies if kernarg != null then {kernarg} else {}
    ensures next == AlignUp(offset, align) + size
    ensures kernarg != null && ptr.Some? ==>
      kernarg[..] == old(kernarg[..AlignUp(offset, align)]) + ptr.value + old(kernarg[AlignUp(offset, align) + size..])
    ensures kernarg != null && ptr.None? ==> kernarg[..] == old(kernarg[..])
  {
    hide AlignUp;
    next := (offset + align - 1) / align * align;
    assert next == AlignUp(offset, align) by { Rounded(offset, align); }
    if kernarg != null && ptr.Some? {
      for i := 0 to size
        invariant forall j :: 0 <= j < kernarg.Length ==>
          kernarg[j] == if next <= j < next + i then ptr.value[j - next] else old(kernarg[j])
      {
        kernarg[next + i] := ptr.value[i];
      }
    }
    next := next + size;
  }

  lemma Rounded(offset: nat, align: nat)
    requires align > 0
    ensures AlignUp(offset, align) == (offset + align - 1) / align * align
  {
  }

  /** The sizing pass: the same steps without a block. */
  method GetKernArgSize(args: seq<Arg>) returns (bytes: nat)
    requires Sized(args)
    ensures bytes == EndOf(args, |args|)
  {
    hide AlignUp;
    bytes := 0;
    for k := 0 to |args|
      invariant bytes == EndOf(args, k)
    {
      bytes := AlignedCopyKernarg(null, None, args[k].bytes, args[k].bytes, bytes);
    }
  }

  /** Byte j of the block belongs to argument i. */
  predicate BelongsTo(args: seq<Arg>, i: nat, j: nat)
    requires Sized(args) && i < |args|
  {
    StartOf(args, i) <= j < StartOf(args, i) + args[i].bytes
  }

  /** The first n arguments are in the block; what belongs to none of them, or to one without content,
      is as it was. */
  ghost predicate Packed(args: seq<Arg>, n: nat, was: seq<byte>, now: seq<byte>)
    requires WellFormed(args) && n <= |args|
  {
    && |now| == |was| && EndOf(args, n) <= |was|
    && (forall i, j :: 0 <= i < n && args[i].content.Some? && 0 <= j < |now| && BelongsTo(args, i, j) ==>
      now[j] == args[i].content.value[j - StartOf(args, i)])
    && (forall j :: 0 <= j < |now| && (forall i :: 0 <= i < n && args[i].content.Some? ==> !BelongsTo(args, i, j)) ==>
      now[j] == was[j])
  }

  lemma {:induction false} PackedNext(args: seq<Arg>, n: nat, was: seq<byte>, before: seq<byte>, now: seq<byte>)
    requires WellFormed(args) && n < |args| && Packed(args, n, was, before) && EndOf(args, n + 1) <= |was|
    requires args[n].content.None? ==> now == before
    requires args[n].content.Some? ==>
      var s := StartOf(args, n); now == before[..s] + args[n].content.value + before[s + args[n].bytes..]
    ensures Packed(args, n + 1, was, now)
  {
    hide AlignUp, StartOf;
    assert EndOf(args, n + 1) == StartOf(args, n) + args[n].bytes;
    forall i, j | 0 <= i < n + 1 && args[i].content.Some? && 0 <= j < |now| && BelongsTo(args, i, j)
      ensures now[j] == args[i].content.value[j - StartOf(args, i)]
    {
      if i < n { NoOverlap(args, i, n); }
    }
    forall j | 0 <= j < |now| && (forall i :: 0 <= i < n + 1 && args[i].content.Some? ==> !BelongsTo(args, i, j))
      ensures now[j] == was[j]
    {
      assert args[n].content.Some? ==> !BelongsTo(args, n, j);
    }
  }

  /** Sizing, allocation, copying: no byte behind the block is touched because the copying pass ends
      where the sizing pass did. The block is what the allocator returned. */
  method FillKernArgs(args: seq<Arg>, kernarg: array<byte>) returns (kernargOffset: nat)
    requires WellFormed(args) && kernarg.Length == EndOf(args, |args|)
    modifies kernarg
    ensures kernargOffset == kernarg.Length
    ensures Packed(args, |args|, old(kernarg[..]), kernarg[..])
  {
    hide AlignUp, StartOf, Packed;
    kernargOffset := 0;
    NothingPacked(args, kernarg[..]);
    for k := 0 to |args|
      invariant kernargOffset == EndOf(args, k) && Packed(args, k, old(kernarg[..]), kernarg[..])
    {
      ghost var before := kernarg[..];
      InOrder(args, k, |args|);
      assert StartOf(args, k) == AlignUp(EndOf(args, k), args[k].bytes) by { Unfold(args, k); }
      kernargOffset := AlignedCopyKernarg(kernarg, args[k].content, args[k].bytes, args[k].bytes, kernargOffset);
      PackedNext(args, k, old(kernarg[..]), before, kernarg[..]);
    }
  }

  lemma Unfold(args: seq<Arg>, i: nat)
    requires Sized(args) && i < |args|
    ensures StartOf(args, i) == AlignUp(EndOf(args, i), args[i].bytes)
    ensures EndOf(args, i + 1) == StartOf(args, i) + args[i].bytes
  {
  }

  lemma NothingPacked(args: seq<Arg>, block: seq<byte>)
    requires WellFormed(args)
    ensures Packed(args, 0, block, block)
  {
  }

  /** What the device reads at the offset of an argument. */
  function ReadBack(args: seq<Arg>, block: seq<byte>, i: nat): seq<byte>
    requires Sized(args) && i < |args| && EndOf(args, |args|) <= |block|
  {
    InOrder(args, i, |args|);
    block[StartOf(args, i)..StartOf(args, i) + args[i].bytes]
  }

  /** Every argument with a content is read back unchanged, one without is what the block held before. */
  lemma RoundTrip(args: seq<Arg>, was: seq<byte>, now: seq<byte>, i: nat)
    requires WellFormed(args) && i < |args| && Packed(args, |args|, was, now)
    ensures ReadBack(args, now, i) == if args[i].content.Some? then args[i].content.value else ReadBack(args, was, i)
  {
    hide AlignUp, StartOf;
    InOrder(args, i, |args|);
    var s := StartOf(args, i);
    if args[i].content.Some? {
      forall j | 0 <= j < args[i].bytes ensures now[s + j] == args[i].content.value[j] {
        assert BelongsTo(args, i, s + j);
      }
    } else {
      forall j | s <= j < s + args[i].bytes ensures now[j] == was[j] {
        forall k | 0 <= k < |args| && args[k].content.Some? ensures !BelongsTo(args, k, j) {
          if k < i { NoOverlap(args, k, i); } else if i < k { NoOverlap(args, i, k); }
        }
      }
    }
  }
}

/** Buffer sizes from a 64-bit request to the allocation, and the packed display timings. */
module Sizes {
  import opened Hardware
  import opened Mmio
  import opened CommandStream
  import opened Driver
  import opened Registry

  /** The least multiple of the page size that is at least n. */
  ghost predicate LeastPages(n: nat, size: nat) {
    && size % 4096 == 0 && n <= size
    && forall m: nat :: m % 4096 == 0 && n <= m ==> size <= m
  }

  /** Rounding up in 32 bits gives the least covering page multiple exactly when the sum does not wrap. */
  lemma PageAlignIff(bytes: uint32)
    ensures LeastPages(bytes, PageAlign(bytes)) <==> bytes <= 0xFFFF_F000
    ensures bytes > 0xFFFF_F000 ==> PageAlign(bytes) == 0
  {
    if bytes <= 0xFFFF_F000 {
      var size := PageAlign(bytes);
      forall m: nat | m % 4096 == 0 && bytes <= m
        ensures size <= m
      {
        assert size - PAGE < bytes;
      }
    }
  }

  /** The mask expression itself, on 32-bit words: the same least covering multiple, and the same wrap to zero. */
  lemma PageAlignMask(b: bv32)
    ensures var size := (b + 0xFFF) & !0xFFF;
      && size & 0xFFF == 0
      && (b <= 0xFFFF_F000 ==> b <= size && size - b <= 0xFFF)
      && (b > 0xFFFF_F000 ==> size == 0)
  {
  }

  /** The size a request of so many bytes gets: one page for none, 64 MiB for more than that, and otherwise the least
      number of pages that covers it. Only the low 32 bits of a request count. */
  ghost predicate Granted(request: uint64, bytes: nat) {
    var low := request % 0x1_0000_0000;
    if low == 0 then bytes == 4096
    else if low > 0x400_0000 then bytes == 0x400_0000
    else LeastPages(low, bytes)
  }

  /** The user client's clamp keeps the rounding away from the wrap and gives every request its size. */
  lemma ClampedSize(request: uint64)
    ensures LeastPages(ClampSize(request), PageAlign(ClampSize(request)))
    ensures PAGE <= PageAlign(ClampSize(request)) <= MAX_BUFFER
    ensures Granted(request, PageAlign(ClampSize(request)))
  {
    PageAlignIff(ClampSize(request));
    assert MAX_BUFFER % PAGE == 0;
  }

  /** A create allocates one buffer exactly if there is a list and memory, even if it then fails to list it; the
      buffer has the size granted to the request, which for one byte to 64 MiB is the least that covers it. */
  lemma RequestedSize(s: State, request: uint64, env: Env)
    ensures var heap := CreateBuffer(s, ClampSize(request), env).state.heap;
      if s.boList.None? || !env.memory then heap == s.heap
      else
        && |heap| == |s.heap| + 1 && heap[..|s.heap|] == s.heap
        && Granted(request, heap[|s.heap|].bytes)
        && 4096 <= heap[|s.heap|].bytes <= 0x400_0000
        && (1 <= request <= 0x400_0000 ==> LeastPages(request, heap[|s.heap|].bytes))
  {
    ClampedSize(request);
  }

  /** The allocation covers what the caller asked for exactly when that is at most 64 MiB. */
  lemma RequestCovered(request: uint64)
    ensures request <= PageAlign(ClampSize(request)) <==> request <= 0x400_0000
  {
    PageAlignIff(ClampSize(request));
  }

  predicate SizeOk(bo: Buffer) {
    bo.bytes % 4096 == 0 && 4096 <= bo.bytes <= 0x400_0000 && |bo.data| == bo.bytes / 4
  }

  ghost predicate SizesOk(s: State) {
    forall id :: 0 <= id < |s.heap| ==> SizeOk(s.heap[id])
  }

  lemma CallSizes(d: Device, s: State, selector: uint32, args: Option<Args>, env: Env)
    requires SizesOk(s)
    ensures SizesOk(ExternalMethod(d, s, selector, args, env).state)
  {
    if args.Some? && |args.value.input| > 0 {
      ClampedSize(args.value.input[0]);
    }
  }

  /** In every run every buffer ever allocated, listed or not, is a whole number of pages between one and 64 MiB and
      its contents fill it. */
  lemma {:induction false} RunSizes(d: Device, s: State, ops: seq<Op>)
    requires ListOk(s) && SizesOk(s)
    ensures SizesOk(Run(d, s, ops))
  {
    if ops != [] {
      var front, op := ops[..|ops| - 1], ops[|ops| - 1];
      var s' := Run(d, s, front);
      RunSizes(d, s, front);
      RunKeepsBuffers(d, s, front);
      match op
      case InitOp(_, _) =>
      case StartOp(_, _, _, _) =>
      case StopOp => StopReleases(s');
      case CallOp(selector, args, env) => CallSizes(d, s', selector, args, env);
    }
  }

  // ---------------------------------------------------------------- display timings

  // A display register holds two sizes, each stored less one: active in the low half, total in the high half.

  function Pack(lo: bv32, hi: bv32): Word {
    (hi << 16) | lo
  }

  function Active(w: Word): bv32 {
    (w & 0xFFFF) + 1
  }

  function Total(w: Word): bv32 {
    ((w >> 16) & 0xFFFF) + 1
  }

  /** Decoding inverts packing for all sizes 1 to 65536. */
  lemma TimingRoundTrip(lo: bv32, hi: bv32)
    requires lo <= 0xFFFF && hi <= 0xFFFF
    ensures Active(Pack(lo, hi)) == lo + 1 && Total(Pack(lo, hi)) == hi + 1
  {
  }

  /** Different register words decode differently. */
  lemma DecodeIsInjective(v: Word, w: Word)
    ensures Active(v) == Active(w) && Total(v) == Total(w) ==> v == w
  {
  }

  /** The recorded register words decode to the documented 2560x1600 mode. */
  lemma RecordedMode()
    ensures Active(0x0a9f_09ff) == 2560 && Total(0x0a9f_09ff) == 2720
    ensures Active(0x06df_063f) == 1600 && Total(0x06df_063f) == 1760
    ensures Active(0x09ff_063f) == 1600 && Total(0x09ff_063f) == 2560
    ensures Active(0x0a4f_0a2f) == 2608 && Total(0x0a4f_0a2f) == 2640
    ensures Active(0x0648_0642) == 1603 && Total(0x0648_0642) == 1609
  {
  }
}

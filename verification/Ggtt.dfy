/** The GGTT probe of bring-up. */
module Ggtt {
  import opened Hardware
  import opened Mmio
  import opened Driver
  import opened Guard

  method ReadRest(m: Bar0)
    modifies m`trace
    ensures m.trace == old(m.trace) + RawReads(m.device, old(m.trace), GGTT_REST).events
  {
    ghost var t := m.trace;
    assert t + [] == t;
    var well1 := RawNext(m, GGTT_REST, 0, t);
    var well2 := RawNext(m, GGTT_REST, 1, t);
    var fenceStart := RawNext(m, GGTT_REST, 2, t);
    var fenceEnd := RawNext(m, GGTT_REST, 3, t);
  }

  /** Reads the page-table control register and, if that is no sentinel, the power wells and the first fence. */
  method ProbeGgtt(m: Bar0?) returns (ok: bool)
    modifies if m == null then {} else {m}`trace
    ensures m == null ==> !ok
    ensures m != null ==> (ok <==> !Sentinel(m.device(old(m.trace), PGTBL_CTL)))
    ensures m != null ==> m.trace == old(m.trace) + Probe(m.device, old(m.trace))
  {
    if m == null { return false; }
    ghost var t := m.trace;
    assert t + [] == t;
    var pgtbl := RawNext(m, [PGTBL_CTL], 0, t);
    assert RawReadsTo(m.device, t, [PGTBL_CTL], 1).values[0] == m.device(t, PGTBL_CTL);
    if pgtbl == SENTINEL_NULL_MMIO || pgtbl == SENTINEL_OUT_OF_RANGE { return false; }
    ghost var first := RawReads(m.device, t, [PGTBL_CTL]).events;
    ReadRest(m);
    assert t + first + RawReads(m.device, t + first, GGTT_REST).events
      == t + (first + RawReads(m.device, t + first, GGTT_REST).events);
    return true;
  }
}

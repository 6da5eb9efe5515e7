/** The command stream as an object over the mapped register file. */
module Stream {
  import opened Hardware
  import opened Mmio
  import opened BootArgs
  import opened Forcewake
  import opened CommandStream
  import opened Guard
  import opened Buffers

  class XeCommandStream {
    const m: Bar0?
    const boot: BootState

    constructor (m: Bar0?, boot: BootState)
      ensures this.m == m && this.boot == boot
    {
      this.m, this.boot := m, boot;
    }

    method ReadState() returns (head: Word, tail: Word, ctl: Word)
      requires m != null
      modifies m`trace
      ensures var r := RawReads(m.device, old(m.trace), RING_STATE);
        m.trace == old(m.trace) + r.events && r.values == [head, tail, ctl]
    {
      ghost var t := m.trace;
      assert t + [] == t;
      head := RawNext(m, RING_STATE, 0, t);
      tail := RawNext(m, RING_STATE, 1, t);
      ctl := RawNext(m, RING_STATE, 2, t);
    }

    method ReadMode()
      requires m != null
      modifies m`trace
      ensures m.trace == old(m.trace) + RawReads(m.device, old(m.trace), RING_MODE).events
    {
      ghost var t := m.trace;
      assert t + [] == t;
      var mi := RawNext(m, RING_MODE, 0, t);
      var gfx := RawNext(m, RING_MODE, 1, t);
    }

    /** The mode registers are read only if head, tail and control came back as proper values. */
    method ReadRing()
      requires m != null
      modifies m`trace
      ensures m.trace == old(m.trace) + RingReads(m.device, old(m.trace))
    {
      ghost var t := m.trace;
      var head, tail, ctl := ReadState();
      ghost var state := RawReads(m.device, t, RING_STATE);
      assert state.values[0] == head && state.values[1] == tail && state.values[2] == ctl;
      if head == SENTINEL_NULL_MMIO || tail == SENTINEL_NULL_MMIO || ctl == SENTINEL_NULL_MMIO { return; }
      if head == SENTINEL_OUT_OF_RANGE || tail == SENTINEL_OUT_OF_RANGE || ctl == SENTINEL_OUT_OF_RANGE { return; }
      ReadMode();
      assert t + state.events + RawReads(m.device, t + state.events, RING_MODE).events
        == t + (state.events + RawReads(m.device, t + state.events, RING_MODE).events);
    }

    /** On every exit the guard is destroyed. */
    method LogRcs0State()
      modifies if m == null then {} else {m}`trace
      ensures m != null ==> m.trace == old(m.trace) + RingLog(m.device, old(m.trace), true, boot.Value())
    {
      if m == null { return; }
      assert m.trace + [] == m.trace;
      if boot.disableCommandStream || boot.strictSafe { return; }
      ghost var t := m.trace;
      var fw := new ForcewakeGuard(m, boot);
      ghost var guard := Open(m.device, t, true, boot.Value());
      ReadRing();
      fw.Destroy();
      ghost var ring := RingReads(m.device, t + guard.events);
      assert t + guard.events + ring + Close(guard.acquired) == t + (guard.events + ring + Close(guard.acquired));
    }

    /** Three no-ops and the end of the batch go to the front of the buffer. */
    method WriteBatch(cmds: array<Word>)
      requires cmds.Length >= 4
      modifies cmds
      ensures cmds[..] == SubmitData(Success, old(cmds[..]))
    {
      cmds[0] := MI_NOOP;
      cmds[1] := MI_NOOP;
      cmds[2] := MI_NOOP;
      cmds[3] := MI_BATCH_BUFFER_END;
    }

    /** Prepares the no-op batch in the buffer, which must still be referenced, and logs the ring state. */
    method SubmitNoop(bo: MemoryDescriptor?) returns (code: IOReturn)
      requires bo != null ==> bo.Valid() && bo.refs > 0
      modifies if m == null then {} else {m}`trace, if bo == null then {} else {bo.data}
      ensures code == SubmitCode(m != null, boot.Value(), if bo == null then None else Some(old(bo.Value())))
      ensures bo != null ==> bo.Value() == old(bo.Value()).(data := SubmitData(code, old(bo.data[..])))
      ensures m != null ==>
        m.trace == old(m.trace) + if code == Success then RingLog(m.device, old(m.trace), true, boot.Value()) else []
    {
      if m == null { return NotReady; }
      assert m.trace + [] == m.trace;
      if bo == null { return BadArgument; }
      if boot.disableCommandStream || boot.strictSafe { return NotReady; }
      if !bo.addressed { return NoMemory; }
      if bo.length < 16 { return NoSpace; }
      WriteBatch(bo.data);
      LogRcs0State();
      return Success;
    }
  }
}

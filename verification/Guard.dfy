/** The mapped register file and the forcewake guard, as objects that change it step by step. */
module Guard {
  import opened Hardware
  import opened Mmio
  import opened BootArgs
  import opened Forcewake

  /** BAR0 of one device: its behaviour, everything done to it so far, and how many mappings are live. */
  class Bar0 {
    const device: Device
    var trace: Trace
    var liveMaps: int

    constructor (device: Device)
      ensures this.device == device && trace == [] && liveMaps == 0
    {
      this.device, trace, liveMaps := device, [], 0;
    }

    /** An indexed load through the register pointer. */
    method Load(off: uint32) returns (w: Word)
      modifies this`trace
      ensures w == Mmio.Load(device, old(trace), off).value
      ensures trace == old(trace) + Mmio.Load(device, old(trace), off).events
    {
      w := device(trace, Dword(off));
      trace := trace + [Read(Dword(off), w)];
    }

    method Store(off: uint32, w: Word)
      modifies this`trace
      ensures trace == old(trace) + [Write(Dword(off), w)]
    {
      trace := trace + [Write(Dword(off), w)];
    }

    method Pause(us: nat)
      modifies this`trace
      ensures trace == old(trace) + [Delay(us)]
    {
      trace := trace + [Delay(us)];
    }
  }

  /** The reader shared by the guard, the command stream and the GGTT probe. */
  method SafeRead(m: Bar0?, off: uint32) returns (w: Word)
    modifies if m == null then {} else {m}`trace
    ensures m == null ==> w == SENTINEL_NULL_MMIO
    ensures m != null ==> w == RawRead(m.device, old(m.trace), true, off).value
    ensures m != null ==> m.trace == old(m.trace) + RawRead(m.device, old(m.trace), true, off).events
  {
    if m == null { return SENTINEL_NULL_MMIO; }
    if off > MAX_SAFE_OFFSET {
      assert m.trace + [] == m.trace;
      return SENTINEL_OUT_OF_RANGE;
    }
    w := m.Load(off);
  }

  /** One more read of a fixed list, through the shared reader. */
  method RawNext(m: Bar0, offs: seq<Register>, k: nat, ghost t: Trace) returns (w: Word)
    requires k < |offs| && m.trace == t + RawReadsTo(m.device, t, offs, k).events
    modifies m`trace
    ensures m.trace == t + RawReadsTo(m.device, t, offs, k + 1).events
    ensures RawReadsTo(m.device, t, offs, k + 1).values == RawReadsTo(m.device, t, offs, k).values + [w]
  {
    w := SafeRead(m, offs[k]);
  }

  class ForcewakeGuard {
    const m: Bar0?
    var acquired: bool

    /** Constructing the guard requests forcewake unless the pointer is null or a boot flag forbids it. */
    constructor (m: Bar0?, boot: BootState)
      modifies if m == null then {} else {m}`trace
      ensures this.m == m
      ensures m == null ==> !acquired
      ensures m != null ==>
        var r := Open(m.device, old(m.trace), true, boot.Value());
        m.trace == old(m.trace) + r.events && acquired == r.acquired
    {
      this.m := m;
      acquired := false;
      new;
      if m == null { return; }
      assert m.trace + [] == m.trace;
      if boot.disableForcewake || boot.strictSafe { return; }
      if FORCEWAKE_REQ > MAX_SAFE_OFFSET || FORCEWAKE_ACK > MAX_SAFE_OFFSET { return; }
      Acquire();
    }

    /** The guarded store: refused when the pointer is null or the offset out of range. */
    method Wr(off: uint32, w: Word)
      requires m != null
      modifies m`trace
      ensures m.trace == old(m.trace) + if off > MAX_SAFE_OFFSET then [] else [Write(Dword(off), w)]
    {
      if off > MAX_SAFE_OFFSET {
        assert m.trace + [] == m.trace;
        return;
      }
      m.Store(off, w);
    }

    /** Polls up to `max` times, waiting after each poll that is not acknowledged. */
    method PollAck(max: nat)
      requires m != null && !acquired
      modifies this`acquired, m`trace
      ensures acquired == Poll(m.device, old(m.trace), max).acquired
      ensures m.trace == old(m.trace) + Poll(m.device, old(m.trace), max).events
    {
      ghost var t, acks: seq<Word> := m.trace, [];
      assert t + [] == t;
      for i := 0 to max
        invariant !acquired && |acks| == i && m.trace == t + Refused(acks)
        invariant RefusedBy(m.device, t, acks)
      {
        var ack := SafeRead(m, FORCEWAKE_ACK);
        LowBit(ack);
        if ack == SENTINEL_NULL_MMIO || ack == SENTINEL_OUT_OF_RANGE {
          PollDetermined(m.device, t, max, acks);
          return;
        }
        if ack & 1 != 0 {
          PollDetermined(m.device, t, max, acks);
          acquired := true;
          return;
        }
        m.Pause(POLL_DELAY);
        RefusedByLast(m.device, t, acks, ack);
        acks := acks + [ack];
      }
      PollDetermined(m.device, t, max, acks);
    }

    method Acquire()
      requires m != null && !acquired
      modifies this`acquired, m`trace
      ensures var request := [Write(FORCEWAKE_REQ, REQUEST_SET)];
        var polled := Poll(m.device, old(m.trace) + request, MAX_POLLS);
        acquired == polled.acquired && m.trace == old(m.trace) + (request + polled.events)
    {
      Wr(FORCEWAKE_REQ, REQUEST_SET);
      PollAck(MAX_POLLS);
    }

    method Release()
      requires m != null
      modifies this`acquired, m`trace
      ensures !acquired && m.trace == old(m.trace) + [Write(FORCEWAKE_REQ, REQUEST_CLEAR)]
    {
      Wr(FORCEWAKE_REQ, REQUEST_CLEAR);
      acquired := false;
    }

    /** The destructor: withdraws the request exactly if it was granted. */
    method Destroy()
      modifies this`acquired, if m == null then {} else {m}`trace
      ensures m != null ==> m.trace == old(m.trace) + Close(old(acquired)) && !acquired
    {
      if acquired && m != null {
        Release();
      } else if m != null {
        assert m.trace + [] == m.trace;
      }
    }
  }
}

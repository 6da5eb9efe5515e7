/** The command stream: the ring-state log under a forcewake guard, and the no-op batch. */
module CommandStream {
  import opened Hardware
  import opened Mmio
  import opened BootArgs
  import opened Forcewake

  // ---------------------------------------------------------------- ring-state log

  /** Head, tail and control; the mode registers only when none of those came back as a sentinel. */
  function RingReads(d: Device, t: Trace): Trace {
    var state := RawReads(d, t, RING_STATE);
    if exists k :: 0 <= k < |state.values| && Sentinel(state.values[k]) then state.events
    else state.events + RawReads(d, t + state.events, RING_MODE).events
  }

  function RingLog(d: Device, t: Trace, mapped: bool, flags: Flags): Trace {
    if !mapped || flags.disableCommandStream || flags.strictSafe then []
    else
      var guard := Open(d, t, true, flags);
      guard.events + RingReads(d, t + guard.events) + Close(guard.acquired)
  }

  const RING: seq<Register> := RING_STATE + RING_MODE

  /** A ring log runs, and runs under a forcewake request. */
  predicate Guarded(mapped: bool, flags: Flags) {
    mapped && !flags.disableCommandStream && !flags.strictSafe && !flags.disableForcewake
  }

  lemma RingReadsEvents(d: Device, t: Trace)
    ensures OnlyReads(RingReads(d, t), RING) && |RingReads(d, t)| >= 3
    ensures InBar(RingReads(d, t), 0x2504)
  {
    var state := RawReads(d, t, RING_STATE);
    RawReadsEvents(d, t, RING_STATE, 0x2504);
    RawReadsEvents(d, t + state.events, RING_MODE, 0x2504);
  }

  lemma {:induction false} RefusedEvents(acks: seq<Word>)
    ensures forall e :: e in Refused(acks) ==> e == Delay(POLL_DELAY) || (e.Read? && e.off == FORCEWAKE_ACK)
  {
    if acks != [] {
      RefusedEvents(acks[1..]);
    }
  }

  lemma PollEvents(d: Device, t: Trace, n: nat)
    ensures forall e :: e in Poll(d, t, n).events ==> e == Delay(POLL_DELAY) || (e.Read? && e.off == FORCEWAKE_ACK)
  {
    var acks := PollOutcome(d, t, n);
    RefusedEvents(acks);
  }

  /** On every exit a guarded log is one request, polls, ring reads, and one clear exactly if the request was
      granted. */
  lemma RingLogBrackets(d: Device, t: Trace, flags: Flags) returns (polls: Trace, ring: Trace)
    requires Guarded(true, flags)
    ensures RingLog(d, t, true, flags) ==
      [Write(FORCEWAKE_REQ, REQUEST_SET)] + polls + ring + Close(Open(d, t, true, flags).acquired)
    ensures forall e :: e in polls ==> e == Delay(POLL_DELAY) || (e.Read? && e.off == FORCEWAKE_ACK)
    ensures OnlyReads(ring, RING)
  {
    var request := [Write(FORCEWAKE_REQ, REQUEST_SET)];
    polls := Poll(d, t + request, MAX_POLLS).events;
    PollEvents(d, t + request, MAX_POLLS);
    ring := RingReads(d, t + (request + polls));
    RingReadsEvents(d, t + (request + polls));
  }

  /** A guarded log takes the monitor from rest to rest: released if granted, lost if not. */
  lemma WatchRingLog(p: Phase, d: Device, t: Trace, flags: Flags)
    requires p == Idle || p == Lost
    requires Guarded(true, flags)
    ensures Watch(p, RingLog(d, t, true, flags)) == if Open(d, t, true, flags).acquired then Idle else Lost
  {
    var guard := Open(d, t, true, flags);
    var ring := RingReads(d, t + guard.events);
    var phase := if guard.acquired then Held else Lost;
    WatchOpen(p, d, t, flags);
    RingReadsEvents(d, t + guard.events);
    WatchReads(phase, ring, RING);
    WatchAppend(p, guard.events, ring);
    WatchAppend(p, guard.events + ring, Close(guard.acquired));
    if guard.acquired {
      WatchOne(Held, Write(FORCEWAKE_REQ, REQUEST_CLEAR));
    }
  }

  /** The log writes to the device exactly when it runs and no boot flag forbids forcewake. */
  lemma RingLogWrites(d: Device, t: Trace, mapped: bool, flags: Flags)
    ensures NoWrites(RingLog(d, t, mapped, flags)) <==> !Guarded(mapped, flags)
  {
    if Guarded(mapped, flags) {
      assert Write(FORCEWAKE_REQ, REQUEST_SET) in RingLog(d, t, mapped, flags);
    } else {
      RingReadsEvents(d, t);
      assert t + [] == t;
    }
  }

  predicate RingLogEvent(e: Event) {
    match e
    case Read(off, _) => off == FORCEWAKE_ACK || off in RING
    case Write(off, w) => off == FORCEWAKE_REQ && (w == REQUEST_SET || w == REQUEST_CLEAR)
    case Delay(us) => us == POLL_DELAY
  }

  /** Everything a ring log can ever do to the device. */
  lemma RingLogEvents(d: Device, t: Trace, mapped: bool, flags: Flags)
    ensures forall e :: e in RingLog(d, t, mapped, flags) ==> RingLogEvent(e)
  {
    if Guarded(mapped, flags) {
      var polls, ring := RingLogBrackets(d, t, flags);
    } else {
      RingReadsEvents(d, t);
      assert t + [] == t;
    }
  }

  /** All of it lies inside a BAR of 0xA190 bytes. */
  lemma RingLogInBar(d: Device, t: Trace, mapped: bool, flags: Flags, len: nat)
    requires len >= 0xA190
    ensures InBar(RingLog(d, t, mapped, flags), len)
  {
    RingLogEvents(d, t, mapped, flags);
    assert forall off :: off in RING ==> off + 4 <= 0xA190;
  }

  // ---------------------------------------------------------------- no-op batch

  /** A memory descriptor: reference count, whether it has a kernel address, byte length, dwords. */
  datatype Buffer = Buffer(refs: int, addressed: bool, bytes: nat, data: seq<Word>)

  const NOOP_BATCH: seq<Word> := [MI_NOOP, MI_NOOP, MI_NOOP, MI_BATCH_BUFFER_END]

  function SubmitCode(mapped: bool, flags: Flags, bo: Option<Buffer>): IOReturn {
    if !mapped then NotReady
    else if bo.None? then BadArgument
    else if flags.disableCommandStream || flags.strictSafe then NotReady
    else if !bo.value.addressed then NoMemory
    else if bo.value.bytes < 16 then NoSpace
    else Success
  }

  /** Contents of the buffer after a submission: the batch at the front, or nothing changed. */
  function SubmitData(code: IOReturn, data: seq<Word>): (r: seq<Word>)
    requires code == Success ==> |data| >= 4
    ensures |r| == |data|
  {
    if code == Success then NOOP_BATCH + data[4..] else data
  }
}

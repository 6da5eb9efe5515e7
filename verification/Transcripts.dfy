/** What the device sees of each operation, register by register, told apart from how the driver computes it. */
module Transcripts {
  import opened Hardware
  import opened Mmio
  import opened BootArgs
  import opened Forcewake
  import opened CommandStream
  import opened Driver
  import opened Histories

  // ---------------------------------------------------------------- asking for registers

  datatype Talk = Talk(events: Trace, answers: seq<Word>)

  /** Asks for registers one after the other. With a limit, a register at or past it is not asked for and counts as
      answered by 0xBAD0FFFF. */
  function Ask(d: Device, t: Trace, limit: nat, offs: seq<nat>): (r: Talk)
    ensures |r.answers| == |offs|
    decreases |offs|, |t|
  {
    if offs == [] then Talk([], [])
    else if limit > 0 && offs[0] >= limit then
      var rest := Ask(d, t, limit, offs[1..]);
      Talk(rest.events, [0xBAD0_FFFF] + rest.answers)
    else
      var w := d(t, offs[0]);
      var rest := Ask(d, t + [Read(offs[0], w)], limit, offs[1..]);
      Talk([Read(offs[0], w)] + rest.events, [w] + rest.answers)
  }

  lemma {:induction false} AskLast(d: Device, t: Trace, limit: nat, offs: seq<nat>, off: nat)
    ensures var a := Ask(d, t, limit, offs);
      Ask(d, t, limit, offs + [off]) ==
      if limit > 0 && off >= limit then Talk(a.events, a.answers + [0xBAD0_FFFF])
      else Talk(a.events + [Read(off, d(t + a.events, off))], a.answers + [d(t + a.events, off)])
    decreases |offs|
  {
    var all := offs + [off];
    if offs == [] {
      assert all[1..] == [] && t + [] == t;
    } else {
      assert all[1..] == offs[1..] + [off];
      if limit > 0 && offs[0] >= limit {
        AskLast(d, t, limit, offs[1..], off);
      } else {
        var first := [Read(offs[0], d(t, offs[0]))];
        AskLast(d, t + first, limit, offs[1..], off);
        var rest := Ask(d, t + first, limit, offs[1..]);
        assert t + first + rest.events == t + (first + rest.events);
      }
    }
  }

  lemma {:induction false} BarReadsAsk(d: Device, t: Trace, len: nat, offs: seq<Register>, k: nat)
    requires k <= |offs|
    ensures var r := BarReadsTo(d, t, len, offs, k); Ask(d, t, len, offs[..k]) == Talk(r.events, r.values)
    decreases k
  {
    if k > 0 {
      BarReadsAsk(d, t, len, offs, k - 1);
      AskLast(d, t, len, offs[..k - 1], offs[k - 1]);
      assert offs[..k] == offs[..k - 1] + [offs[k - 1]];
    }
  }

  lemma {:induction false} RawReadsAsk(d: Device, t: Trace, offs: seq<Register>, k: nat)
    requires k <= |offs|
    ensures var r := RawReadsTo(d, t, offs, k); Ask(d, t, 0, offs[..k]) == Talk(r.events, r.values)
    decreases k
  {
    if k > 0 {
      RawReadsAsk(d, t, offs, k - 1);
      AskLast(d, t, 0, offs[..k - 1], offs[k - 1]);
      assert offs[..k] == offs[..k - 1] + [offs[k - 1]];
    }
  }

  lemma ListRead(d: Device, t: Trace, len: nat, offs: seq<Register>)
    ensures var r := BarReads(d, t, len, offs); Ask(d, t, len, offs) == Talk(r.events, r.values)
    ensures var r := RawReads(d, t, offs); Ask(d, t, 0, offs) == Talk(r.events, r.values)
  {
    assert offs[..|offs|] == offs;
    BarReadsAsk(d, t, len, offs, |offs|);
    RawReadsAsk(d, t, offs, |offs|);
  }

  // ---------------------------------------------------------------- bring-up

  /** One of the two words a refused read returns. */
  predicate ErrorWord(w: Word) {
    w == 0xDEAD_BEEF || w == 0xBAD0_FFFF
  }

  /** The page-table register, and unless that came back as an error the power wells and the first fence. */
  function TableTalk(d: Device, t: Trace): Trace {
    var w := d(t, 0x2020);
    var first := [Read(0x2020, w)];
    if ErrorWord(w) then first else first + Ask(d, t + first, 0, [0x45400, 0x45404, 0x10_0000, 0x10_0004]).events
  }

  /** Four registers unchecked and then, unless strict-safe, the power registers checked against the BAR length, the
      page table, and the display registers checked again. */
  function BringUpTalk(d: Device, t: Trace, strictSafe: bool, len: nat): Trace {
    var first := Ask(d, t, 0, [0x0, 0x4, 0x10, 0x100]).events;
    if strictSafe then first
    else
      var power := Ask(d, t + first, len,
                       [0x45400, 0x45404, 0x45408, 0x4540C, 0xA094, 0xA090, 0xA024, 0xA18C, 0xA168, 0x138108]).events;
      var table := TableTalk(d, t + first + power);
      var display := Ask(d, t + first + power + table, len,
                         [0x70008, 0x60400, 0x64000, 0x60000, 0x6000C, 0x6001C, 0x70180, 0x70188, 0x7019C,
                          0xC7200, 0xC7204, 0xC8250, 0xC8254]).events;
      first + (power + table + display)
  }

  lemma ProbeTranscript(d: Device, t: Trace)
    ensures Probe(d, t) == TableTalk(d, t)
  {
    var first := [Read(0x2020, d(t, 0x2020))];
    ListRead(d, t, 0, [PGTBL_CTL]);
    assert [PGTBL_CTL][1..] == [];
    assert RawReads(d, t, [PGTBL_CTL]).events == first;
    ListRead(d, t + first, 0, GGTT_REST);
  }

  /** Exactly which registers bring-up reads, in which order, under which checks. */
  lemma BringUpTranscript(d: Device, t: Trace, flags: Flags, len: nat)
    ensures BringUp(d, t, flags, len) == BringUpTalk(d, t, flags.strictSafe, len)
  {
    var t1 := t + RawReads(d, t, FIRST_READS).events;
    var t2 := t1 + BarReads(d, t1, len, POWER_STATE).events;
    ListRead(d, t, len, FIRST_READS);
    ListRead(d, t1, len, POWER_STATE);
    ProbeTranscript(d, t2);
    ListRead(d, t2 + Probe(d, t2), len, DISPLAY_STATE);
  }

  // ---------------------------------------------------------------- ring log and submission

  /** Head, tail and control, and then the two mode registers unless one of the three came back as an error. */
  function RingTalk(d: Device, t: Trace): Trace {
    var state := Ask(d, t, 0, [0x2034, 0x2030, 0x202C]);
    if exists w :: w in state.answers && ErrorWord(w) then state.events
    else state.events + Ask(d, t + state.events, 0, [0x209C, 0x2500]).events
  }

  /** Exactly which registers a ring log reads besides the handshake. */
  lemma RingTranscript(d: Device, t: Trace)
    ensures RingReads(d, t) == RingTalk(d, t)
  {
    var state := RawReads(d, t, RING_STATE);
    ListRead(d, t, 0, RING_STATE);
    assert forall k :: 0 <= k < |state.values| ==> state.values[k] in state.values;
    ListRead(d, t + state.events, 0, RING_MODE);
  }

  /** A healthy log reads all five ring registers, in this order. */
  lemma HealthyRing(d: Device, t: Trace)
    requires forall t, off :: !ErrorWord(d(t, off))
    ensures var es := RingReads(d, t);
      && |es| == 5 && (forall i :: 0 <= i < 5 ==> es[i].Read?)
      && es[0].off == 0x2034 && es[1].off == 0x2030 && es[2].off == 0x202C && es[3].off == 0x209C && es[4].off == 0x2500
  {
    RingTranscript(d, t);
    AskHealthy(d, t, [0x2034, 0x2030, 0x202C]);
    var state := Ask(d, t, 0, [0x2034, 0x2030, 0x202C]);
    AskHealthy(d, t + state.events, [0x209C, 0x2500]);
  }

  /** Asking without a limit asks for every register, in order, and hears what the device says. */
  lemma {:induction false} AskHealthy(d: Device, t: Trace, offs: seq<nat>)
    requires forall t, off :: !ErrorWord(d(t, off))
    ensures var r := Ask(d, t, 0, offs);
      && |r.events| == |offs| && (forall w :: w in r.answers ==> !ErrorWord(w))
      && forall i :: 0 <= i < |offs| ==> r.events[i].Read? && r.events[i].off == offs[i]
    decreases |offs|
  {
    if offs != [] {
      AskHealthy(d, t + [Read(offs[0], d(t, offs[0]))], offs[1..]);
    }
  }

  /** A guard touches the device exactly if there is a pointer and no boot flag forbids it, and then it requests first;
      one that does not holds nothing. */
  lemma GuardRequestsIff(d: Device, t: Trace, mapped: bool, flags: Flags)
    ensures var guard := Open(d, t, mapped, flags);
      if !mapped || flags.disableForcewake || flags.strictSafe then guard == Opened([], false)
      else guard.events != [] && guard.events[0] == Write(0xA188, 0x0001_0001)
  {
  }

  /** Each refusal is one read of the acknowledgement and one millisecond. */
  lemma {:induction false} RefusedShape(acks: seq<Word>, i: nat)
    requires i < |acks|
    ensures |Refused(acks)| == 2 * |acks|
    ensures Refused(acks)[2 * i] == Read(0xA18C, acks[i]) && Refused(acks)[2 * i + 1] == Delay(1000)
  {
    if |acks| > 1 {
      RefusedShape(acks[1..], if i > 0 then i - 1 else 0);
    }
  }

  /** The request, the refusals, the answer that ended them if one came within 50, the ring registers, and the clear
      exactly if that answer granted the request. */
  function SubmitTalk(d: Device, t: Trace, acks: seq<Word>): Trace {
    var asked := [Write(0xA188, 0x0001_0001)] + Refused(acks);
    var last := d(t + asked, 0xA18C);
    var polled := if |acks| < 50 then asked + [Read(0xA18C, last)] else asked;
    var clear := if |acks| < 50 && !ErrorWord(last) then [Write(0xA188, 0x0001_0000)] else [];
    polled + RingTalk(d, t + polled) + clear
  }

  /** Exactly what a submission that requests forcewake does to the device, by the device's answers. */
  lemma SubmitTranscript(d: Device, s: State, env: Env, acks: seq<Word>)
    requires s.mmio && env.memory && env.addressed && !Silenced(s.flags)
    requires PollEnds(d, s.trace + [Write(0xA188, 0x0001_0001)], 50, acks)
    ensures Submit(d, s, env).state.trace == s.trace + SubmitTalk(d, s.trace, acks)
  {
    var t := s.trace;
    var request := [Write(0xA188, 0x0001_0001)];
    PollDetermined(d, t + request, 50, acks);
    assert t + request + Refused(acks) == t + (request + Refused(acks));
    var last := d(t + (request + Refused(acks)), 0xA18C);
    assert request + (Refused(acks) + [Read(0xA18C, last)]) == request + Refused(acks) + [Read(0xA18C, last)];
    RingTranscript(d, t + Open(d, t, true, s.flags).events);
  }

  // ---------------------------------------------------------------- time

  /** A submission that requests forcewake waits one millisecond for each refusal and no longer. */
  lemma SubmitDelay(d: Device, t: Trace, acks: seq<Word>)
    ensures DelayTotal(SubmitTalk(d, t, acks)) == 1000 * |acks|
  {
    var request := [Write(0xA188, 0x0001_0001)];
    var asked := request + Refused(acks);
    var answer := if |acks| < 50 then [Read(0xA18C, d(t + asked, 0xA18C))] else [];
    var ring := RingTalk(d, t + (asked + answer));
    var clear := if |acks| < 50 && !ErrorWord(d(t + asked, 0xA18C)) then [Write(0xA188, 0x0001_0000)] else [];
    assert asked + [] == asked;
    RingTranscript(d, t + (asked + answer));
    RingReadsEvents(d, t + (asked + answer));
    NoDelay(request);
    RefusedDelay(acks);
    NoDelay(answer);
    NoDelay(ring);
    NoDelay(clear);
    DelayAppend(request, Refused(acks));
    DelayAppend(asked, answer);
    DelayAppend(asked + answer, ring);
    DelayAppend(asked + answer + ring, clear);
  }

  function Zeros(n: nat): seq<Word> {
    seq(n, _ => 0)
  }

  lemma ZerosRefuse(d: Device, t: Trace, n: nat)
    requires forall i :: 0 <= i < n ==> d(t + Refused(Zeros(i)), FORCEWAKE_ACK) == 0
    ensures RefusedBy(d, t, Zeros(n))
  {
    forall i | 0 <= i < n
      ensures RefusedAt(d, t, Zeros(n), i)
    {
      assert Zeros(n)[..i] == Zeros(i);
      assert d(t + Refused(Zeros(i)), FORCEWAKE_ACK) == 0;
    }
  }

  /** On a device that answers zero throughout, a submission that requests forcewake waits exactly 50 ms. */
  lemma SilentDelay(d: Device, s: State, env: Env) returns (es: Trace)
    requires s.mmio && env.memory && env.addressed && !Silenced(s.flags)
    requires forall t, off :: d(t, off) == 0
    ensures Submit(d, s, env).state.trace == s.trace + es && DelayTotal(es) == 50_000
  {
    es := SubmitTalk(d, s.trace, Zeros(50));
    ZerosRefuse(d, s.trace + [Write(0xA188, 0x0001_0001)], 50);
    SubmitTranscript(d, s, env, Zeros(50));
    SubmitDelay(d, s.trace, Zeros(50));
  }

  /** A device that acknowledges once 49 ms have been waited for. */
  function Slow(t: Trace, off: nat): Word {
    if DelayTotal(t) >= 49_000 then 1 else 0
  }

  lemma SlowAnswers(t: Trace, n: nat)
    requires DelayTotal(t) == 0
    ensures Slow(t + Refused(Zeros(n)), FORCEWAKE_ACK) == if n >= 49 then 1 else 0
  {
    RefusedDelay(Zeros(n));
    DelayAppend(t, Refused(Zeros(n)));
  }

  lemma SlowPolls(t: Trace)
    requires DelayTotal(t) == 0
    ensures PollEnds(Slow, t, 50, Zeros(49)) && Slow(t + Refused(Zeros(49)), 0xA18C) == 1
  {
    forall i | 0 <= i < 49
      ensures Slow(t + Refused(Zeros(i)), FORCEWAKE_ACK) == 0
    {
      SlowAnswers(t, i);
    }
    ZerosRefuse(Slow, t, 49);
    SlowAnswers(t, 49);
  }

  lemma StartDelay(d: Device)
    ensures var s := Step(d, INITIAL, PLAIN_START);
      s.mmio && s.flags == NO_FLAGS && DelayTotal(s.trace + [Write(0xA188, 0x0001_0001)]) == 0
  {
    BringUpEvents(d, [], NO_FLAGS, 0x100_0000);
    assert Step(d, INITIAL, PLAIN_START).trace == BringUp(d, [], NO_FLAGS, 0x100_0000);
    NoDelay(Step(d, INITIAL, PLAIN_START).trace + [Write(0xA188, 0x0001_0001)]);
  }

  lemma SlowSubmit(s: State, reset: bv16)
    requires s == Run(Slow, INITIAL, [PLAIN_START]) && s.mmio && !Silenced(s.flags)
    requires DelayTotal(s.trace + [Write(0xA188, 0x0001_0001)]) == 0
    ensures Request(reset, Submit(Slow, s, PlainEnv()).state.trace) == reset & 0xFFFE
  {
    SlowPolls(s.trace + [Write(0xA188, 0x0001_0001)]);
    ReleasedIffAcknowledged(Slow, [PLAIN_START], PlainEnv(), reset, Zeros(49));
  }

  /** An acknowledgement at the last of the 50 polls still counts: the request is withdrawn. */
  lemma LastPollCounts(reset: bv16)
    ensures Request(reset, Run(Slow, INITIAL, [PLAIN_START, SubmitCall()]).trace) == reset & 0xFFFE
  {
    var s := Step(Slow, INITIAL, PLAIN_START);
    RunOne(Slow, INITIAL, PLAIN_START);
    StartDelay(Slow);
    SlowSubmit(s, reset);
    SubmitCallSubmits(Slow, s);
    RunTwo(Slow, INITIAL, PLAIN_START, SubmitCall());
  }

  // ---------------------------------------------------------------- honest histories

  ghost predicate HonestAt(d: Device, t: Trace, es: Trace, i: nat)
    requires i < |es|
  {
    es[i].Read? ==> es[i].value == d(t + es[..i], es[i].off)
  }

  /** Every read among these events, made after `t`, returned what the device answered at its moment. */
  ghost predicate Honest(d: Device, t: Trace, es: Trace) {
    forall i :: 0 <= i < |es| ==> HonestAt(d, t, es, i)
  }

  lemma HonestAppend(d: Device, t: Trace, a: Trace, b: Trace)
    requires Honest(d, t, a) && Honest(d, t + a, b)
    ensures Honest(d, t, a + b)
  {
    forall i | 0 <= i < |a + b|
      ensures HonestAt(d, t, a + b, i)
    {
      if i < |a| {
        assert HonestAt(d, t, a, i) && (a + b)[..i] == a[..i];
      } else {
        assert HonestAt(d, t + a, b, i - |a|);
        assert t + (a + b)[..i] == t + a + b[..i - |a|];
      }
    }
  }

  lemma HonestRead(d: Device, t: Trace, off: nat)
    ensures Honest(d, t, [Read(off, d(t, off))])
  {
    var es := [Read(off, d(t, off))];
    assert t + es[..0] == t;
    assert HonestAt(d, t, es, 0);
  }

  lemma {:induction false} HonestAsk(d: Device, t: Trace, limit: nat, offs: seq<nat>)
    ensures Honest(d, t, Ask(d, t, limit, offs).events)
    decreases |offs|
  {
    if offs != [] {
      if limit > 0 && offs[0] >= limit {
        HonestAsk(d, t, limit, offs[1..]);
      } else {
        var first := [Read(offs[0], d(t, offs[0]))];
        HonestRead(d, t, offs[0]);
        HonestAsk(d, t + first, limit, offs[1..]);
        HonestAppend(d, t, first, Ask(d, t + first, limit, offs[1..]).events);
      }
    }
  }

  lemma HonestBringUp(d: Device, t: Trace, flags: Flags, len: nat)
    ensures Honest(d, t, BringUp(d, t, flags, len))
  {
    var first := RawReads(d, t, FIRST_READS).events;
    ListRead(d, t, 0, FIRST_READS);
    HonestAsk(d, t, 0, FIRST_READS);
    HonestSurvey(d, t + first, len);
    HonestAppend(d, t, first, Survey(d, t + first, len));
  }

  lemma HonestSurvey(d: Device, t: Trace, len: nat)
    ensures Honest(d, t, Survey(d, t, len))
  {
    var power := BarReads(d, t, len, POWER_STATE).events;
    var probe := Probe(d, t + power);
    var display := BarReads(d, t + power + probe, len, DISPLAY_STATE).events;
    ListRead(d, t, len, POWER_STATE);
    HonestAsk(d, t, len, POWER_STATE);
    HonestProbe(d, t + power);
    HonestAppend(d, t, power, probe);
    ListRead(d, t + power + probe, len, DISPLAY_STATE);
    HonestAsk(d, t + power + probe, len, DISPLAY_STATE);
    assert t + power + probe == t + (power + probe);
    HonestAppend(d, t, power + probe, display);
  }

  lemma HonestProbe(d: Device, t: Trace)
    ensures Honest(d, t, Probe(d, t))
  {
    var first := [Read(0x2020, d(t, 0x2020))];
    var rest := Ask(d, t + first, 0, [0x45400, 0x45404, 0x10_0000, 0x10_0004]).events;
    ProbeTranscript(d, t);
    HonestRead(d, t, 0x2020);
    HonestAsk(d, t + first, 0, [0x45400, 0x45404, 0x10_0000, 0x10_0004]);
    HonestAppend(d, t, first, rest);
  }

  lemma HonestPause(d: Device, t: Trace, e: Event)
    requires !e.Read?
    ensures Honest(d, t, [e])
  {
  }

  lemma {:induction false} HonestPoll(d: Device, t: Trace, n: nat)
    ensures Honest(d, t, Poll(d, t, n).events)
    decreases n
  {
    if n > 0 {
      var ack := RawRead(d, t, true, FORCEWAKE_ACK);
      HonestRead(d, t, FORCEWAKE_ACK);
      if !Sentinel(ack.value) && ack.value & 1 == 0 {
        var es := ack.events + [Delay(POLL_DELAY)];
        HonestPause(d, t + ack.events, Delay(POLL_DELAY));
        HonestAppend(d, t, ack.events, [Delay(POLL_DELAY)]);
        HonestPoll(d, t + es, n - 1);
        HonestAppend(d, t, es, Poll(d, t + es, n - 1).events);
      }
    }
  }

  lemma HonestRing(d: Device, t: Trace)
    ensures Honest(d, t, RingReads(d, t))
  {
    var state := Ask(d, t, 0, [0x2034, 0x2030, 0x202C]).events;
    RingTranscript(d, t);
    HonestAsk(d, t, 0, [0x2034, 0x2030, 0x202C]);
    HonestAsk(d, t + state, 0, [0x209C, 0x2500]);
    HonestAppend(d, t, state, Ask(d, t + state, 0, [0x209C, 0x2500]).events);
  }

  lemma HonestOpen(d: Device, t: Trace, flags: Flags)
    ensures Honest(d, t, Open(d, t, true, flags).events)
  {
    var request := [Write(FORCEWAKE_REQ, REQUEST_SET)];
    HonestPause(d, t, Write(FORCEWAKE_REQ, REQUEST_SET));
    HonestPoll(d, t + request, MAX_POLLS);
    HonestAppend(d, t, request, Poll(d, t + request, MAX_POLLS).events);
  }

  lemma HonestRingLog(d: Device, t: Trace, mapped: bool, flags: Flags)
    ensures Honest(d, t, RingLog(d, t, mapped, flags))
  {
    var guard := Open(d, t, true, flags);
    var ring := RingReads(d, t + guard.events);
    HonestOpen(d, t, flags);
    HonestRing(d, t + guard.events);
    HonestAppend(d, t, guard.events, ring);
    if guard.acquired {
      HonestPause(d, t + (guard.events + ring), Write(FORCEWAKE_REQ, REQUEST_CLEAR));
    }
    HonestAppend(d, t, guard.events + ring, Close(guard.acquired));
  }

  lemma QueryHonest(d: Device, s: State, offs: seq<Register>, k: nat) returns (es: Trace)
    requires k <= |offs|
    ensures Query(d, s, offs, k).state.trace == s.trace + es && Honest(d, s.trace, es)
  {
    assert s.trace + [] == s.trace;
    es := if s.mmio then BarReadsTo(d, s.trace, s.bar0Length, offs, k).events else [];
    BarReadsAsk(d, s.trace, s.bar0Length, offs, k);
    HonestAsk(d, s.trace, s.bar0Length, offs[..k]);
  }

  lemma CallHonest(d: Device, s: State, m: Selector, args: Args, env: Env) returns (es: Trace)
    requires |args.input| == InputCount(m) && args.outputs == OutputCount(m)
    ensures Dispatch(d, s, m, args, env).state.trace == s.trace + es && Honest(d, s.trace, es)
  {
    assert s.trace + [] == s.trace;
    es := [];
    match m
    case CreateSelector =>
    case WaitSelector =>
    case SubmitSelector =>
      es := if s.mmio && env.memory && env.addressed then RingLog(d, s.trace, true, s.flags) else [];
      HonestRingLog(d, s.trace, true, s.flags);
    case RegsSelector => es := QueryHonest(d, s, SAFE_REGISTERS, SafeCount(8));
    case GtSelector => es := QueryHonest(d, s, GT_CONFIG, 8);
    case DisplaySelector => es := QueryHonest(d, s, DISPLAY_INFO, 8);
  }

  lemma StepHonest(d: Device, s: State, op: Op) returns (es: Trace)
    ensures Step(d, s, op).trace == s.trace + es && Honest(d, s.trace, es)
  {
    assert s.trace + [] == s.trace;
    es := [];
    match op
    case InitOp(_, _) =>
    case StopOp =>
    case StartOp(superOk, isPci, map0, listOk) =>
      if superOk && isPci && map0.Some? && map0.value.length > 0 && map0.value.addressed {
        es := BringUp(d, s.trace, s.flags, map0.value.length);
        HonestBringUp(d, s.trace, s.flags, map0.value.length);
      }
    case CallOp(selector, args, env) =>
      if selector < |METHODS| && args.Some? {
        var m := METHODS[selector];
        if |args.value.input| == InputCount(m) && args.value.outputs == OutputCount(m) {
          es := CallHonest(d, s, m, args.value, env);
        }
      }
  }

  /** In every run every read of the history, whichever part of the driver made it, returned what the device answered
      at that moment to that register. */
  lemma {:induction false} RunHonest(d: Device, s: State, ops: seq<Op>) returns (es: Trace)
    ensures Run(d, s, ops).trace == s.trace + es && Honest(d, s.trace, es)
  {
    es := [];
    if ops != [] {
      es := RunHonest(d, s, ops[..|ops| - 1]);
      var more := StepHonest(d, Run(d, s, ops[..|ops| - 1]), ops[|ops| - 1]);
      HonestAppend(d, s.trace, es, more);
      es := es + more;
    }
  }
}

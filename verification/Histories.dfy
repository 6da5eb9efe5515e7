/** What the device can see over a whole run: which writes, which reads, and in which order. */
module Histories {
  import opened Hardware
  import opened Mmio
  import opened BootArgs
  import opened Forcewake
  import opened CommandStream
  import opened Driver

  const SURVEY: seq<Register> := POWER_STATE + [PGTBL_CTL] + GGTT_REST + DISPLAY_STATE
  const QUERIES: seq<Register> := SAFE_REGISTERS + GT_CONFIG + DISPLAY_INFO

  /** All a strict-safe driver may read. */
  const STRICT_READS: seq<Register> := FIRST_READS + QUERIES

  /** All the driver may read outside a ring log. */
  const PLAIN_READS: seq<Register> := STRICT_READS + SURVEY

  lemma ProbeEvents(d: Device, t: Trace)
    ensures OnlyReads(Probe(d, t), [PGTBL_CTL] + GGTT_REST)
  {
    var first := RawReads(d, t, [PGTBL_CTL]);
    RawReadsEvents(d, t, [PGTBL_CTL], 0);
    RawReadsEvents(d, t + first.events, GGTT_REST, 0);
  }

  lemma SurveyEvents(d: Device, t: Trace, len: nat)
    ensures OnlyReads(Survey(d, t, len), SURVEY)
  {
    var power := BarReads(d, t, len, POWER_STATE).events;
    var probe := Probe(d, t + power);
    BarReadsEvents(d, t, len, POWER_STATE);
    ProbeEvents(d, t + power);
    BarReadsEvents(d, t + power + probe, len, DISPLAY_STATE);
  }

  lemma BringUpEvents(d: Device, t: Trace, flags: Flags, len: nat)
    ensures OnlyReads(BringUp(d, t, flags, len), PLAIN_READS)
    ensures flags.strictSafe ==> OnlyReads(BringUp(d, t, flags, len), FIRST_READS)
  {
    var first := RawReads(d, t, FIRST_READS).events;
    RawReadsEvents(d, t, FIRST_READS, 0);
    SurveyEvents(d, t + first, len);
  }

  predicate AlignedBar(s: State) {
    s.bar0Length > 0 && s.bar0Length % 4 == 0
  }

  lemma QueryEvents(d: Device, s: State, offs: seq<Register>, k: nat) returns (es: Trace)
    requires k <= |offs|
    ensures Query(d, s, offs, k).state == s.(trace := s.trace + es)
    ensures OnlyReads(es, offs) && (AlignedBar(s) ==> InBar(es, s.bar0Length))
  {
    assert s.trace + [] == s.trace;
    es := if s.mmio then BarReadsTo(d, s.trace, s.bar0Length, offs, k).events else [];
    BarReadsToEvents(d, s.trace, s.bar0Length, offs, k);
  }

  /** One call either only reads allow-listed registers or is one ring log. */
  lemma CallEvents(d: Device, s: State, selector: uint32, args: Option<Args>, env: Env) returns (es: Trace)
    ensures ExternalMethod(d, s, selector, args, env).state.trace == s.trace + es
    ensures || (OnlyReads(es, QUERIES) && (AlignedBar(s) ==> InBar(es, s.bar0Length)))
            || es == RingLog(d, s.trace, s.mmio, s.flags)
  {
    assert s.trace + [] == s.trace;
    es := [];
    if selector == 1 {
      es := RingLog(d, s.trace, s.mmio, s.flags);
      if !(s.mmio && env.memory && env.addressed) { es := []; }
    }
    if selector == 3 { es := QueryEvents(d, s, SAFE_REGISTERS, SafeCount(8)); }
    if selector == 4 { es := QueryEvents(d, s, GT_CONFIG, 8); }
    if selector == 5 { es := QueryEvents(d, s, DISPLAY_INFO, 8); }
    if es != [] && (args.None? || |args.value.input| != InputCount(METHODS[selector])
      || args.value.outputs != OutputCount(METHODS[selector])) { es := []; }
  }

  lemma StepEvents(d: Device, s: State, op: Op) returns (es: Trace)
    ensures Step(d, s, op).trace == s.trace + es
    ensures OnlyReads(es, if s.flags.strictSafe then STRICT_READS else PLAIN_READS)
      || es == RingLog(d, s.trace, s.mmio, s.flags)
  {
    assert s.trace + [] == s.trace;
    es := [];
    match op
    case InitOp(_, _) =>
    case StopOp =>
    case StartOp(superOk, isPci, map0, listOk) =>
      if superOk && isPci && map0.Some? && map0.value.length > 0 && map0.value.addressed {
        es := BringUp(d, s.trace, s.flags, map0.value.length);
        BringUpEvents(d, s.trace, s.flags, map0.value.length);
      }
    case CallOp(selector, args, env) =>
      es := CallEvents(d, s, selector, args, env);
  }

  // ---------------------------------------------------------------- boot flags

  /** Strict-safe always brings the other two restrictions with it. */
  predicate Coherent(f: Flags) {
    f.strictSafe ==> f.disableForcewake && f.disableCommandStream
  }

  /** Some boot flag keeps the driver from ever requesting forcewake. */
  predicate Silenced(f: Flags) {
    f.disableForcewake || f.disableCommandStream || f.strictSafe
  }

  lemma StepFlags(d: Device, s: State, op: Op)
    requires Coherent(s.flags)
    ensures Below(s.flags, Step(d, s, op).flags) && Coherent(Step(d, s, op).flags)
  {
    if op.InitOp? && op.arg.Some? {
      TextFlagsMeaning(op.arg.value);
    }
  }

  /** Whatever is called, and however often with whatever text, no flag is ever lost. */
  lemma {:induction false} RunFlags(d: Device, s: State, ops: seq<Op>)
    requires Coherent(s.flags)
    ensures Below(s.flags, Run(d, s, ops).flags) && Coherent(Run(d, s, ops).flags)
  {
    if ops != [] {
      RunFlags(d, s, ops[..|ops| - 1]);
      StepFlags(d, Run(d, s, ops[..|ops| - 1]), ops[|ops| - 1]);
    }
  }

  // ---------------------------------------------------------------- writes

  /** The only register ever written is the forcewake request, with its two handshake words. */
  lemma {:induction false} RunWrites(d: Device, ops: seq<Op>)
    ensures forall e :: e in Run(d, INITIAL, ops).trace && e.Write? ==>
      e.off == 0xA188 && (e.value == 0x0001_0001 || e.value == 0x0001_0000)
  {
    if ops != [] {
      RunWrites(d, ops[..|ops| - 1]);
      var s := Run(d, INITIAL, ops[..|ops| - 1]);
      var es := StepEvents(d, s, ops[|ops| - 1]);
      RingLogEvents(d, s.trace, s.mmio, s.flags);
    }
  }

  lemma SilencedStep(d: Device, s: State, op: Op) returns (es: Trace)
    requires Silenced(s.flags)
    ensures Step(d, s, op).trace == s.trace + es && NoWrites(es)
  {
    es := StepEvents(d, s, op);
    RingLogWrites(d, s.trace, s.mmio, s.flags);
  }

  lemma QuietAppend(a: Trace, b: Trace)
    requires NoWrites(a) && NoWrites(b)
    ensures NoWrites(a + b)
  {
  }

  /** Once silenced, the driver never writes again. */
  lemma {:induction false} SilencedRun(d: Device, s: State, ops: seq<Op>) returns (es: Trace)
    requires Coherent(s.flags) && Silenced(s.flags)
    ensures Run(d, s, ops).trace == s.trace + es && NoWrites(es)
  {
    es := [];
    if ops != [] {
      var front := SilencedRun(d, s, ops[..|ops| - 1]);
      RunFlags(d, s, ops[..|ops| - 1]);
      var more := SilencedStep(d, Run(d, s, ops[..|ops| - 1]), ops[|ops| - 1]);
      QuietAppend(front, more);
      assert s.trace + front + more == s.trace + (front + more);
      es := front + more;
    }
  }

  /** A boot text with a noforcewake, nocs or strictsafe field rules out every write, in every run on every device. */
  lemma BootTextSilences(d: Device, text: string, ops: seq<Op>)
    requires Mentions(text, "noforcewake") || Mentions(text, "nocs") || Mentions(text, "strictsafe")
    ensures NoWrites(Run(d, INITIAL, [InitOp(true, Some(text))] + ops).trace)
  {
    TextFlagsMeaning(text);
    var boot := InitOp(true, Some(text));
    var s := Step(d, INITIAL, boot);
    RunAppend(d, INITIAL, [boot], ops);
    RunOne(d, INITIAL, boot);
    var es := SilencedRun(d, s, ops);
  }

  /** No run on any device writes exactly if the boot text has one of the three fields. */
  lemma BootTextSilencesIff(text: string)
    ensures (forall d: Device, ops: seq<Op> :: NoWrites(Run(d, INITIAL, [InitOp(true, Some(text))] + ops).trace))
      <==> Mentions(text, "noforcewake") || Mentions(text, "nocs") || Mentions(text, "strictsafe")
  {
    if Mentions(text, "noforcewake") || Mentions(text, "nocs") || Mentions(text, "strictsafe") {
      forall d: Device, ops: seq<Op>
        ensures NoWrites(Run(d, INITIAL, [InitOp(true, Some(text))] + ops).trace)
      {
        BootTextSilences(d, text, ops);
      }
    } else {
      var d: Device := (_, _) => 0;
      PlainTextWrites(d, text);
    }
  }

  lemma PlainTextWrites(d: Device, text: string)
    requires !Mentions(text, "noforcewake") && !Mentions(text, "nocs") && !Mentions(text, "strictsafe")
    ensures !NoWrites(Run(d, INITIAL, [InitOp(true, Some(text))] + [PLAIN_START, SubmitCall()]).trace)
  {
    TextFlagsMeaning(text);
    var boot := InitOp(true, Some(text));
    var s := Step(d, INITIAL, boot);
    RunAppend(d, INITIAL, [boot], [PLAIN_START, SubmitCall()]);
    RunOne(d, INITIAL, boot);
    RunTwo(d, s, PLAIN_START, SubmitCall());
    SubmitCallSubmits(d, Step(d, s, PLAIN_START));
    var es := SubmitWritesIff(d, Step(d, s, PLAIN_START), PlainEnv());
  }

  /** A submission that gets as far as its batch writes to the device exactly if no boot flag silences it. */
  lemma SubmitWritesIff(d: Device, s: State, env: Env) returns (es: Trace)
    requires s.mmio && env.memory && env.addressed && Coherent(s.flags)
    ensures Submit(d, s, env).state.trace == s.trace + es
    ensures NoWrites(es) <==> Silenced(s.flags)
  {
    es := if s.flags.disableCommandStream || s.flags.strictSafe then [] else RingLog(d, s.trace, true, s.flags);
    RingLogWrites(d, s.trace, true, s.flags);
  }

  // ---------------------------------------------------------------- reads

  /** A strict-safe driver reads nothing but the first four registers and the user-client allow-lists. */
  lemma {:induction false} StrictRun(d: Device, s: State, ops: seq<Op>) returns (es: Trace)
    requires Coherent(s.flags) && s.flags.strictSafe
    ensures Run(d, s, ops).trace == s.trace + es && OnlyReads(es, STRICT_READS)
  {
    es := [];
    if ops != [] {
      es := StrictRun(d, s, ops[..|ops| - 1]);
      var s' := Run(d, s, ops[..|ops| - 1]);
      RunFlags(d, s, ops[..|ops| - 1]);
      var more := StepEvents(d, s', ops[|ops| - 1]);
      es := es + more;
    }
  }

  // ---------------------------------------------------------------- forcewake protocol

  ghost predicate NoRing(offs: seq<Register>) {
    forall k :: 0 <= k < |offs| ==> offs[k] < 0x202C || offs[k] > 0x2500
  }

  lemma PlainIsNotRing()
    ensures forall off :: off in PLAIN_READS ==> !RingOffset(off)
  {
    assert NoRing(FIRST_READS) && NoRing(SAFE_REGISTERS);
    assert NoRing(GT_CONFIG) && NoRing(DISPLAY_INFO);
    assert NoRing(POWER_STATE) && NoRing([PGTBL_CTL] + GGTT_REST);
    assert NoRing(DISPLAY_STATE);
    assert NoRing(PLAIN_READS);
  }

  /** A step takes the monitor from rest to rest. */
  lemma WatchStep(d: Device, s: State, op: Op, p: Phase) returns (es: Trace)
    requires p == Idle || p == Lost
    requires !s.flags.disableForcewake && !s.flags.strictSafe
    ensures Step(d, s, op).trace == s.trace + es
    ensures Watch(p, es) == Idle || Watch(p, es) == Lost
  {
    es := StepEvents(d, s, op);
    if OnlyReads(es, PLAIN_READS) {
      PlainIsNotRing();
      WatchReads(p, es, PLAIN_READS);
    } else {
      WatchRingLog(p, d, s.trace, s.flags);
    }
  }

  /** The history follows the handshake for n events, is then at rest, and has no write from then on. */
  ghost predicate Follows(t: Trace, n: nat) {
    n <= |t| && Watch(Idle, t[..n]) in {Idle, Lost} && NoWrites(t[n..])
  }

  lemma FollowsQuietly(t: Trace, es: Trace, n: nat)
    requires Follows(t, n) && NoWrites(es)
    ensures Follows(t + es, n)
  {
    assert (t + es)[..n] == t[..n] && (t + es)[n..] == t[n..] + es;
  }

  lemma FollowsToEnd(d: Device, s: State, op: Op)
    requires Follows(s.trace, |s.trace|) && !s.flags.disableForcewake && !s.flags.strictSafe
    ensures var t := Step(d, s, op).trace; Follows(t, |t|)
  {
    var t := Step(d, s, op).trace;
    assert s.trace[..|s.trace|] == s.trace && t[..|t|] == t;
    var es := WatchStep(d, s, op, Watch(Idle, s.trace));
    WatchAppend(Idle, s.trace, es);
  }

  /** Every run's history follows the handshake up to some moment and has no write from then on; that moment is
      the end unless a boot flag has disabled forcewake. */
  lemma {:induction false} RunProtocol(d: Device, ops: seq<Op>) returns (n: nat)
    ensures var s := Run(d, INITIAL, ops);
      Follows(s.trace, n) && (!s.flags.disableForcewake ==> n == |s.trace|)
  {
    n := 0;
    if ops != [] {
      var front, op := ops[..|ops| - 1], ops[|ops| - 1];
      var s := Run(d, INITIAL, front);
      n := RunProtocol(d, front);
      RunFlags(d, INITIAL, front);
      StepFlags(d, s, op);
      if s.flags.disableForcewake {
        var es := SilencedStep(d, s, op);
        FollowsQuietly(s.trace, es, n);
      } else {
        FollowsToEnd(d, s, op);
        n := |Step(d, s, op).trace|;
      }
    }
  }

  /** In every run every clear comes after a request and then its acknowledgement, with no other write in between. */
  lemma RunClears(d: Device, ops: seq<Op>, k: nat) returns (j: nat, i: nat)
    requires var t := Run(d, INITIAL, ops).trace; k < |t| && t[k] == Write(FORCEWAKE_REQ, REQUEST_CLEAR)
    ensures var t := Run(d, INITIAL, ops).trace; j < i < k && Standing(t[..k], j) && Grant(t, i)
  {
    var t := Run(d, INITIAL, ops).trace;
    var n := RunProtocol(d, ops);
    assert t[..n][..k] == t[..k];
    j, i := ClearAfterGrant(t[..n], k);
  }

  /** In every run every ring read comes after a request with no write in between, unless forcewake has been
      disabled, and then nothing is written from there on. */
  lemma RunRingReads(d: Device, ops: seq<Op>, k: nat) returns (j: nat)
    requires var t := Run(d, INITIAL, ops).trace; k < |t| && t[k].Read? && RingOffset(t[k].off)
    ensures var s := Run(d, INITIAL, ops);
      || (j < k && Standing(s.trace[..k], j))
      || (s.flags.disableForcewake && NoWrites(s.trace[k..]))
  {
    var t := Run(d, INITIAL, ops).trace;
    var n := RunProtocol(d, ops);
    j := 0;
    if k < n {
      assert t[..n][..k] == t[..k];
      j := RingReadAfterRequest(t[..n], k);
    } else {
      assert t[k..] == t[n..][k - n..];
    }
  }

  /** In every run, whatever the request register held at reset, bits 1 to 15 stay as they were, and bit 0 is set if
      the last write was a request, clear if it was not, and as at reset if there was none. So bit 0 tells whether
      the last write was a request exactly if it was clear at reset or something was written. */
  lemma RunRequestRegister(d: Device, ops: seq<Op>, reset: bv16)
    ensures var t := Run(d, INITIAL, ops).trace;
      && Request(reset, t) == Shown(reset, Pending(t), NoWrites(t))
      && Request(reset, t) & 0xFFFE == reset & 0xFFFE
      && ((Request(reset, t) & 1 == 1 <==> Pending(t)) <==> reset & 1 == 0 || !NoWrites(t))
  {
    RunRequestShown(d, ops, reset);
    var t := Run(d, INITIAL, ops).trace;
    PendingWrote(t);
    ShownBits(reset, Request(reset, t), Pending(t), NoWrites(t));
  }

  lemma PendingWrote(t: Trace)
    ensures Pending(t) ==> !NoWrites(t)
  {
    if Pending(t) {
      var j: nat :| Standing(t, j);
      assert t[j] in t;
    }
  }

  lemma RunRequestShown(d: Device, ops: seq<Op>, reset: bv16)
    ensures var t := Run(d, INITIAL, ops).trace; Request(reset, t) == Shown(reset, Pending(t), NoWrites(t))
  {
    var t := Run(d, INITIAL, ops).trace;
    var n := RunProtocol(d, ops);
    var t1, es := t[..n], t[n..];
    assert t == t1 + es;
    assert NoWrites(t) <==> NoWrites(t1);
    RequestFollowsMonitor(reset, t1);
    QuietKeepsRequest(reset, t1, es);
    if Watch(Idle, t1) == Idle {
      forall j: nat
        ensures !Standing(t, j)
      {
        IdleIsSettled(t1, j);
        QuietKeepsStanding(t1, es, j);
      }
    } else {
      var j, _ := RequestStands(t1);
      QuietKeepsStanding(t1, es, j);
    }
  }

  /** A request that stands when a boot flag silences the driver is never withdrawn. */
  lemma StandingForever(d: Device, s: State, ops: seq<Op>, j: nat)
    requires Coherent(s.flags) && Silenced(s.flags) && Standing(s.trace, j)
    ensures Standing(Run(d, s, ops).trace, j)
  {
    var es := SilencedRun(d, s, ops);
    QuietKeepsStanding(s.trace, es, j);
  }

  // ---------------------------------------------------------------- one submission

  /** Every ring read among these events comes after a request among them, with no write in between. */
  ghost predicate RingReadsRequested(es: Trace) {
    forall k :: 0 <= k < |es| && es[k].Read? && RingOffset(es[k].off) ==> Pending(es[..k])
  }

  /** A submission that logs the ring reads it under a request of its own exactly if forcewake is not disabled. */
  lemma SubmitRequestsIff(d: Device, s: State, env: Env) returns (es: Trace, first: nat)
    requires s.mmio && env.memory && env.addressed && !s.flags.disableCommandStream && !s.flags.strictSafe
    ensures Submit(d, s, env).state.trace == s.trace + es
    ensures first < |es| && es[first].Read? && RingOffset(es[first].off)
    ensures RingReadsRequested(es) <==> !s.flags.disableForcewake
  {
    es := RingLog(d, s.trace, true, s.flags);
    var guard := Open(d, s.trace, true, s.flags);
    RingReadsEvents(d, s.trace + guard.events);
    first := |guard.events|;
    assert es[first] in RingReads(d, s.trace + guard.events);
    if s.flags.disableForcewake {
      assert es[..first] == [];
    } else {
      WatchRingLog(Idle, d, s.trace, s.flags);
      forall k | 0 <= k < |es| && es[k].Read? && RingOffset(es[k].off)
        ensures Pending(es[..k])
      {
        var j := RingReadAfterRequest(es, k);
      }
    }
  }

  /** In any run and whatever the register held at reset, a submission that requests forcewake leaves the request bit
      clear exactly if among the device's first 50 answers one has bit 0 set and the first such is no sentinel;
      otherwise the request stays. */
  lemma ReleasedIffAcknowledged(d: Device, ops: seq<Op>, env: Env, reset: bv16, acks: seq<Word>)
    requires var s := Run(d, INITIAL, ops);
      && s.mmio && env.memory && env.addressed && !Silenced(s.flags)
      && PollEnds(d, s.trace + [Write(0xA188, 0x0001_0001)], 50, acks)
    ensures var s := Run(d, INITIAL, ops); var t := s.trace + [Write(0xA188, 0x0001_0001)];
      Request(reset, Submit(d, s, env).state.trace) ==
      if |acks| < 50 && !Sentinel(d(t + Refused(acks), 0xA18C)) then reset & 0xFFFE else reset | 1
  {
    var s := Run(d, INITIAL, ops);
    var es := RingLog(d, s.trace, true, s.flags);
    var n := RunProtocol(d, ops);
    assert s.trace[..n] == s.trace;
    PollDetermined(d, s.trace + [Write(FORCEWAKE_REQ, REQUEST_SET)], MAX_POLLS, acks);
    WatchRingLog(Watch(Idle, s.trace), d, s.trace, s.flags);
    WatchAppend(Idle, s.trace, es);
    RingLogWrites(d, s.trace, true, s.flags);
    RequestFollowsMonitor(reset, s.trace + es);
  }

  // ---------------------------------------------------------------- concrete runs

  const PLAIN_START := StartOp(true, true, Some(Mapping(0x100_0000, true)), true)

  function PlainEnv(): Env {
    Env(true, true, true, _ => 0)
  }

  function SubmitCall(): Op {
    CallOp(1, Some(Args([], 0)), PlainEnv())
  }

  lemma SubmitCallSubmits(d: Device, s: State)
    ensures Step(d, s, SubmitCall()) == Submit(d, s, PlainEnv()).state
  {
  }

  /** On a device that never acknowledges, a start and one submission leave the request bit set. */
  lemma SilentDeviceKeepsRequest(reset: bv16)
    ensures Request(reset, Run((_, _) => 0, INITIAL, [PLAIN_START, SubmitCall()]).trace) == reset | 1
  {
    var d: Device := (_, _) => 0;
    var s := Step(d, INITIAL, PLAIN_START);
    RunOne(d, INITIAL, PLAIN_START);
    RunTwo(d, INITIAL, PLAIN_START, SubmitCall());
    SubmitCallSubmits(d, s);
    var acks := PollOutcome(d, s.trace + [Write(FORCEWAKE_REQ, REQUEST_SET)], MAX_POLLS);
    ReleasedIffAcknowledged(d, [PLAIN_START], PlainEnv(), reset, acks);
  }

  /** A register that comes up with bit 0 set shows a request that the driver never made. */
  lemma RequestSetAtReset(d: Device)
    ensures var t := Run(d, INITIAL, [PLAIN_START]).trace; Request(1, t) == 1 && !Pending(t)
  {
    RunOne(d, INITIAL, PLAIN_START);
    BringUpEvents(d, [], NO_FLAGS, 0x100_0000);
    var t := Step(d, INITIAL, PLAIN_START).trace;
    assert t == BringUp(d, [], NO_FLAGS, 0x100_0000);
    assert NoWrites(t);
    assert forall j: nat | j < |t| :: t[j] in t;
    RunRequestRegister(d, [PLAIN_START], 1);
  }

  lemma NoForcewakeText()
    ensures TextFlags("noforcewake") == NO_FLAGS.(disableForcewake := true)
  {
    PlainToken("noforcewake");
    FieldTextFlags("noforcewake");
  }

  /** With the boot text "noforcewake", a start and one submission read the ring although nothing was ever written. */
  lemma RingReadWithoutRequest(d: Device) returns (k: nat)
    ensures var t := Run(d, INITIAL, [InitOp(true, Some("noforcewake")), PLAIN_START] + [SubmitCall()]).trace;
      k < |t| && t[k].Read? && RingOffset(t[k].off) && NoWrites(t)
  {
    var boot := InitOp(true, Some("noforcewake"));
    RunTwo(d, INITIAL, boot, PLAIN_START);
    NoForcewakeText();
    k := UnguardedSubmit(d, Step(d, INITIAL, boot));
    RunAppend(d, INITIAL, [boot, PLAIN_START], [SubmitCall()]);
    RunOne(d, Run(d, INITIAL, [boot, PLAIN_START]), SubmitCall());
  }

  lemma UnguardedSubmit(d: Device, s: State) returns (k: nat)
    requires s == INITIAL.(flags := NO_FLAGS.(disableForcewake := true))
    ensures var t := Step(d, Step(d, s, PLAIN_START), SubmitCall()).trace;
      k < |t| && t[k].Read? && RingOffset(t[k].off) && NoWrites(t)
  {
    var s1 := Step(d, s, PLAIN_START);
    var first := SilencedStep(d, s, PLAIN_START);
    var second := SilencedStep(d, s1, SubmitCall());
    var es, i := SubmitRequestsIff(d, s1, PlainEnv());
    SubmitCallSubmits(d, s1);
    k := |s1.trace| + i;
  }

  // ---------------------------------------------------------------- time

  /** Microseconds spent in delays. */
  function DelayTotal(es: Trace): nat {
    if es == [] then 0
    else DelayTotal(es[..|es| - 1]) + match es[|es| - 1] case Delay(us) => us case _ => 0
  }

  lemma {:induction false} DelayAppend(a: Trace, b: Trace)
    ensures DelayTotal(a + b) == DelayTotal(a) + DelayTotal(b)
  {
    if b == [] {
      assert a + b == a;
    } else {
      assert (a + b)[..|a + b| - 1] == a + b[..|b| - 1];
      DelayAppend(a, b[..|b| - 1]);
    }
  }

  lemma {:induction false} NoDelay(es: Trace)
    requires forall e :: e in es ==> !e.Delay?
    ensures DelayTotal(es) == 0
  {
    if es != [] {
      assert es[|es| - 1] in es;
      NoDelay(es[..|es| - 1]);
    }
  }

  lemma {:induction false} RefusedDelay(acks: seq<Word>)
    ensures DelayTotal(Refused(acks)) == POLL_DELAY * |acks|
  {
    if acks != [] {
      var poll := [Read(FORCEWAKE_ACK, acks[0]), Delay(POLL_DELAY)];
      assert poll[..1] == [poll[0]] && [poll[0]][..0] == [];
      assert DelayTotal([poll[0]]) == 0;
      assert DelayTotal(poll) == POLL_DELAY;
      RefusedDelay(acks[1..]);
      DelayAppend(poll, Refused(acks[1..]));
    }
  }

  lemma PollDelay(d: Device, t: Trace, n: nat)
    ensures DelayTotal(Poll(d, t, n).events) <= POLL_DELAY * n
  {
    var acks := PollOutcome(d, t, n);
    RefusedDelay(acks);
    if |acks| < n {
      var tail := [Read(FORCEWAKE_ACK, d(t + Refused(acks), FORCEWAKE_ACK))];
      NoDelay(tail);
      DelayAppend(Refused(acks), tail);
    }
  }

  lemma RingLogDelay(d: Device, t: Trace, mapped: bool, flags: Flags)
    ensures DelayTotal(RingLog(d, t, mapped, flags)) <= POLL_DELAY * MAX_POLLS
  {
    if mapped && !flags.disableCommandStream && !flags.strictSafe {
      var guard := Open(d, t, true, flags);
      var request := [Write(FORCEWAKE_REQ, REQUEST_SET)];
      PollDelay(d, t + request, MAX_POLLS);
      NoDelay(request);
      DelayAppend(request, Poll(d, t + request, MAX_POLLS).events);
      var ring, close := RingReads(d, t + guard.events), Close(guard.acquired);
      RingReadsEvents(d, t + guard.events);
      NoDelay(ring);
      NoDelay(close);
      DelayAppend(guard.events, ring);
      DelayAppend(guard.events + ring, close);
    }
  }

  /** No single operation ever waits longer than 50 milliseconds in total. */
  lemma StepDelay(d: Device, s: State, op: Op) returns (es: Trace)
    ensures Step(d, s, op).trace == s.trace + es
    ensures DelayTotal(es) <= 50_000
  {
    es := StepEvents(d, s, op);
    RingLogDelay(d, s.trace, s.mmio, s.flags);
    if es != RingLog(d, s.trace, s.mmio, s.flags) {
      NoDelay(es);
    }
  }
}

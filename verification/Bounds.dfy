/** How long BAR0 must be for every access of a run to stay inside it. */
module Bounds {
  import opened Hardware
  import opened Mmio
  import opened BootArgs
  import opened CommandStream
  import opened Driver
  import opened Histories
  import opened Registry

  /** The unchecked reads reach 0x100 always and the first fence pair unless strict-safe. */
  function NeededLength(flags: Flags): nat {
    if flags.strictSafe then 0x104 else 0x10_0008
  }

  lemma InBarAppend(a: Trace, b: Trace, len: nat)
    ensures InBar(a + b, len) <==> InBar(a, len) && InBar(b, len)
  {
    assert forall e :: e in a + b <==> e in a || e in b;
  }

  lemma ProbeInBar(d: Device, t: Trace, len: nat)
    requires len >= 0x10_0008
    ensures InBar(Probe(d, t), len)
  {
    var first := RawReads(d, t, [PGTBL_CTL]);
    RawReadsEvents(d, t, [PGTBL_CTL], len);
    RawReadsEvents(d, t + first.events, GGTT_REST, len);
    InBarAppend(first.events, RawReads(d, t + first.events, GGTT_REST).events, len);
  }

  lemma SurveyInBar(d: Device, t: Trace, len: nat)
    requires len >= 0x10_0008 && len % 4 == 0
    ensures InBar(Survey(d, t, len), len)
  {
    var power := BarReads(d, t, len, POWER_STATE).events;
    var probe := Probe(d, t + power);
    BarReadsEvents(d, t, len, POWER_STATE);
    ProbeInBar(d, t + power, len);
    BarReadsEvents(d, t + power + probe, len, DISPLAY_STATE);
  }

  lemma BringUpInBar(d: Device, t: Trace, flags: Flags, len: nat)
    requires len >= NeededLength(flags) && len % 4 == 0
    ensures InBar(BringUp(d, t, flags, len), len)
  {
    var first := RawReads(d, t, FIRST_READS).events;
    RawReadsEvents(d, t, FIRST_READS, len);
    if !flags.strictSafe {
      SurveyInBar(d, t + first, len);
    }
  }

  lemma SurveyReaches(d: Device, t: Trace, len: nat)
    requires (forall t, off :: d(t, off) == 0) && len < 0x10_0008
    ensures !InBar(Survey(d, t, len), len)
  {
    var power := BarReads(d, t, len, POWER_STATE).events;
    var probe := Probe(d, t + power);
    ProbeReaches(d, t + power, len);
    InBarAppend(power, probe, len);
    InBarAppend(power + probe, BarReads(d, t + power + probe, len, DISPLAY_STATE).events, len);
  }

  /** On a device that answers zero everywhere, bring-up makes all of its unchecked reads. */
  lemma BringUpReaches(t: Trace, flags: Flags, len: nat) returns (d: Device)
    requires len < NeededLength(flags)
    ensures !InBar(BringUp(d, t, flags, len), len)
  {
    d := (_, _) => 0;
    var first := RawReads(d, t, FIRST_READS).events;
    if flags.strictSafe {
      RawReadsEvents(d, t, FIRST_READS, len);
      assert FIRST_READS[3] + 4 > len;
    } else {
      SurveyReaches(d, t + first, len);
      InBarAppend(first, Survey(d, t + first, len), len);
    }
  }

  lemma ProbeReaches(d: Device, t: Trace, len: nat)
    requires (forall t, off :: d(t, off) == 0) && len < 0x10_0008
    ensures !InBar(Probe(d, t), len)
  {
    var first := RawReads(d, t, [PGTBL_CTL]);
    var rest := RawReads(d, t + first.events, GGTT_REST).events;
    assert [PGTBL_CTL][..0] == [];
    assert first.values[0] == 0;
    assert GGTT_REST[3] + 4 > len;
    RawReadsEvents(d, t + first.events, GGTT_REST, len);
    InBarAppend(first.events, rest, len);
  }

  /** Bring-up stays inside an aligned BAR on every device exactly when the BAR has the needed length. */
  lemma BringUpFitsIff(flags: Flags, len: nat)
    requires len % 4 == 0
    ensures (forall d: Device, t: Trace :: InBar(BringUp(d, t, flags, len), len)) <==> len >= NeededLength(flags)
  {
    if len >= NeededLength(flags) {
      forall d: Device, t: Trace
        ensures InBar(BringUp(d, t, flags, len), len)
      {
        BringUpInBar(d, t, flags, len);
      }
    } else {
      var d := BringUpReaches([], flags, len);
    }
  }

  /** The one-megabyte minimum that bring-up warns about is eight bytes short of what it reads. */
  lemma OneMegabyteIsShort()
    ensures exists d: Device :: !InBar(BringUp(d, [], NO_FLAGS, 1024 * 1024), 1024 * 1024)
  {
    var d := BringUpReaches([], NO_FLAGS, 1024 * 1024);
  }

  // ---------------------------------------------------------------- runs

  predicate LongEnough(s: State) {
    s.mmio ==> AlignedBar(s) && s.bar0Length >= NeededLength(s.flags)
  }

  /** Every mapping a start obtains is aligned and has at least this length. */
  predicate MapsAtLeast(op: Op, need: nat) {
    op.StartOp? && Usable(op.map0) ==> op.map0.value.length % 4 == 0 && op.map0.value.length >= need
  }

  lemma CallInBar(d: Device, s: State, selector: uint32, args: Option<Args>, env: Env) returns (es: Trace)
    requires LongEnough(s)
    ensures ExternalMethod(d, s, selector, args, env).state.trace == s.trace + es && InBar(es, s.bar0Length)
  {
    if s.mmio {
      es := CallEvents(d, s, selector, args, env);
      if !s.flags.strictSafe {
        RingLogInBar(d, s.trace, s.mmio, s.flags, s.bar0Length);
      }
    } else {
      es := [];
      assert s.trace + [] == s.trace;
    }
  }

  /** A start that is offered an empty BAR keeps a pointer it finds but forgets how long its mapping is. */
  predicate ForgetsLength(s: State, op: Op) {
    op.StartOp? && op.superOk && op.isPci && op.map0.Some? && op.map0.value.length == 0 && s.mmio
  }

  ghost predicate KeepsLength(d: Device, s: State, ops: seq<Op>) {
    forall i :: 0 <= i < |ops| ==> !ForgetsLength(Run(d, s, ops[..i]), ops[i])
  }

  lemma LegalKeepsLength(d: Device, s: State, ops: seq<Op>)
    requires Inv(s) && Legal(d, s, ops)
    ensures KeepsLength(d, s, ops)
  {
    forall i | 0 <= i < |ops|
      ensures !ForgetsLength(Run(d, s, ops[..i]), ops[i])
    {
      assert forall j :: 0 <= j < i ==> ops[..i][..j] == ops[..j];
      RunKeepsInv(d, s, ops[..i]);
    }
  }

  lemma StepInBar(d: Device, s: State, op: Op, need: nat) returns (es: Trace)
    requires LongEnough(s) && Coherent(s.flags)
    requires MapsAtLeast(op, need) && need >= NeededLength(s.flags) && !ForgetsLength(s, op)
    ensures LongEnough(Step(d, s, op))
    ensures Step(d, s, op).trace == s.trace + es && InBar(es, Step(d, s, op).bar0Length)
  {
    assert s.trace + [] == s.trace;
    es := [];
    match op
    case InitOp(_, _) => StepFlags(d, s, op);
    case StopOp =>
    case StartOp(superOk, isPci, map0, listOk) =>
      if superOk && isPci && Usable(map0) {
        es := BringUp(d, s.trace, s.flags, map0.value.length);
        BringUpInBar(d, s.trace, s.flags, map0.value.length);
      }
    case CallOp(selector, args, env) =>
      es := CallInBar(d, s, selector, args, env);
  }

  lemma PrefixStays(d: Device, s: State, ops: seq<Op>, n: nat)
    requires n <= |ops| && forall i :: 0 <= i < n ==> StepStaysInside(d, s, ops[..n], i)
    ensures forall i :: 0 <= i < n ==> StepStaysInside(d, s, ops, i)
  {
    forall i | 0 <= i < n
      ensures StepStaysInside(d, s, ops, i)
    {
      assert StepStaysInside(d, s, ops[..n], i);
      assert ops[..n][..i] == ops[..i] && ops[..n][..i + 1] == ops[..i + 1];
    }
  }

  /** If every mapping is aligned and long enough, no step of a run touches anything outside BAR0 unless some start
      made the driver forget its length. */
  lemma {:induction false} RunInBar(d: Device, s: State, ops: seq<Op>, need: nat)
    requires LongEnough(s) && Coherent(s.flags) && KeepsLength(d, s, ops)
    requires need >= NeededLength(s.flags) && forall i :: 0 <= i < |ops| ==> MapsAtLeast(ops[i], need)
    ensures LongEnough(Run(d, s, ops))
    ensures forall i :: 0 <= i < |ops| ==> StepStaysInside(d, s, ops, i)
  {
    if ops != [] {
      var n := |ops| - 1;
      var front := ops[..n];
      assert forall i :: 0 <= i <= n ==> front[..i] == ops[..i];
      RunInBar(d, s, front, need);
      RunFlags(d, s, front);
      var es := StepInBar(d, Run(d, s, front), ops[n], need);
      assert ops[..n + 1] == ops;
      assert StepStaysInside(d, s, ops, n);
      PrefixStays(d, s, ops, n);
    }
  }

  /** What step i adds to the history lies inside the BAR mapped at that time. */
  ghost predicate StepStaysInside(d: Device, s: State, ops: seq<Op>, i: nat)
    requires i < |ops|
  {
    var before, after := Run(d, s, ops[..i]), Run(d, s, ops[..i + 1]);
    exists es: Trace :: after.trace == before.trace + es && InBar(es, after.bar0Length)
  }

  ghost predicate StaysInside(d: Device, s: State, ops: seq<Op>) {
    forall i :: 0 <= i < |ops| ==> StepStaysInside(d, s, ops, i)
  }

  /** Every BAR0 that a start is offered has this length. */
  predicate MapsExactly(ops: seq<Op>, len: nat) {
    forall i :: 0 <= i < |ops| && ops[i].StartOp? && ops[i].map0.Some? ==> ops[i].map0.value.length == len
  }

  lemma ShortBarIsLeft(s: State, len: nat) returns (d: Device, ops: seq<Op>)
    requires 0 < len < NeededLength(s.flags)
    ensures MapsExactly(ops, len) && !StaysInside(d, s, ops)
  {
    d := BringUpReaches(s.trace, s.flags, len);
    var start := StartOp(true, true, Some(Mapping(len, true)), true);
    ops := [start];
    RunOne(d, s, start);
    assert ops[..0] == [] && ops[..1] == ops;
    forall es: Trace | Step(d, s, start).trace == s.trace + es
      ensures es == BringUp(d, s.trace, s.flags, len)
    {
      assert es == (s.trace + es)[|s.trace|..];
      assert BringUp(d, s.trace, s.flags, len) == (s.trace + BringUp(d, s.trace, s.flags, len))[|s.trace|..];
    }
    assert !StepStaysInside(d, s, ops, 0);
  }

  /** A service that is only ever offered empty BARs never gets a pointer, and so never touches the device. */
  lemma {:induction false} EmptyBarIsRefused(d: Device, s: State, ops: seq<Op>)
    requires !s.mmio && MapsExactly(ops, 0)
    ensures !Run(d, s, ops).mmio && Run(d, s, ops).trace == s.trace
  {
    if ops != [] {
      EmptyBarIsRefused(d, s, ops[..|ops| - 1]);
    }
  }

  lemma ExactKeepsLength(d: Device, s: State, ops: seq<Op>, len: nat)
    requires !s.mmio && MapsExactly(ops, len)
    ensures KeepsLength(d, s, ops)
  {
    forall i | 0 <= i < |ops|
      ensures !ForgetsLength(Run(d, s, ops[..i]), ops[i])
    {
      if len == 0 {
        EmptyBarIsRefused(d, s, ops[..i]);
      }
    }
  }

  /** If BAR0 always has the same aligned length, no run on any device leaves it, restarts included, exactly if that
      length is at least what bring-up needs; a BAR of length zero is refused and never touched. */
  lemma RunsFitIff(s: State, len: nat)
    requires !s.mmio && Coherent(s.flags) && len % 4 == 0
    ensures (forall d: Device, ops: seq<Op> :: MapsExactly(ops, len) ==> StaysInside(d, s, ops))
      <==> len == 0 || len >= NeededLength(s.flags)
  {
    if len == 0 || len >= NeededLength(s.flags) {
      forall d: Device, ops: seq<Op> | MapsExactly(ops, len)
        ensures StaysInside(d, s, ops)
      {
        ExactKeepsLength(d, s, ops, len);
        RunInBar(d, s, ops, NeededLength(s.flags));
      }
    } else {
      var d, ops := ShortBarIsLeft(s, len);
    }
  }

  // ---------------------------------------------------------------- empty BARs on a restart

  /** One past the highest register a user query asks for. */
  const QUERY_REACH: nat := 0x13_810C

  /** Every BAR0 that a start is offered has this length or none. */
  predicate MapsOrEmpty(ops: seq<Op>, len: nat) {
    forall i :: 0 <= i < |ops| && ops[i].StartOp? && ops[i].map0.Some? ==> ops[i].map0.value.length in {0, len}
  }

  /** Everything a run adds to the history lies inside a BAR of this length. */
  ghost predicate StaysWithin(d: Device, s: State, ops: seq<Op>, len: nat) {
    exists es: Trace :: Run(d, s, ops).trace == s.trace + es && InBar(es, len)
  }

  lemma StepWithin(d: Device, s: State, op: Op, len: nat) returns (es: Trace)
    requires len >= QUERY_REACH && len % 4 == 0 && MapsOrEmpty([op], len)
    ensures Step(d, s, op).trace == s.trace + es && InBar(es, len)
  {
    assert s.trace + [] == s.trace && [op][0] == op;
    es := [];
    match op
    case InitOp(_, _) =>
    case StopOp =>
    case StartOp(superOk, isPci, map0, listOk) =>
      if superOk && isPci && Usable(map0) {
        es := BringUp(d, s.trace, s.flags, len);
        BringUpInBar(d, s.trace, s.flags, len);
      }
    case CallOp(selector, args, env) =>
      es := CallEvents(d, s, selector, args, env);
      RingLogInBar(d, s.trace, s.mmio, s.flags, len);
      assert forall off :: off in QUERIES ==> off + 4 <= QUERY_REACH;
  }

  lemma {:induction false} RunWithin(d: Device, s: State, ops: seq<Op>, len: nat) returns (es: Trace)
    requires len >= QUERY_REACH && len % 4 == 0 && MapsOrEmpty(ops, len)
    ensures Run(d, s, ops).trace == s.trace + es && InBar(es, len)
  {
    es := [];
    if ops != [] {
      es := RunWithin(d, s, ops[..|ops| - 1], len);
      var more := StepWithin(d, Run(d, s, ops[..|ops| - 1]), ops[|ops| - 1], len);
      InBarAppend(es, more, len);
      es := es + more;
    }
  }

  function StartWith(len: nat): Op {
    StartOp(true, true, Some(Mapping(len, true)), true)
  }

  function GtCall(): Op {
    CallOp(4, Some(Args([], 8)), PlainEnv())
  }

  /** With a pointer but no known length, a configuration query reads 0x138108 last. */
  lemma UnboundedQueryReads(d: Device, s: State)
    requires s.mmio && s.bar0Length == 0
    ensures var t := Step(d, s, GtCall()).trace;
      |t| > |s.trace| && t[|t| - 1].Read? && t[|t| - 1].off == 0x13_8108
  {
    assert METHODS[4] == GtSelector;
    assert GT_CONFIG[7] == 0x13_8108;
  }

  /** A start, a second start that is offered an empty BAR and a query read 0x138108, however short the mapping. */
  lemma ForgottenLength(d: Device, s: State, len: nat)
    requires len > 0
    ensures var t := Run(d, s, [StartWith(len), StartWith(0), GtCall()]).trace;
      |t| > |s.trace| && t[|t| - 1].Read? && t[|t| - 1].off == 0x13_8108
  {
    var ops := [StartWith(len), StartWith(0), GtCall()];
    assert ops[..2] == [StartWith(len), StartWith(0)];
    RunTwo(d, s, StartWith(len), StartWith(0));
    UnboundedQueryReads(d, Run(d, s, ops[..2]));
  }

  lemma EmptyRestartLeaves(d: Device, s: State, len: nat)
    requires 0 < len < QUERY_REACH
    ensures MapsOrEmpty([StartWith(len), StartWith(0), GtCall()], len)
    ensures !StaysWithin(d, s, [StartWith(len), StartWith(0), GtCall()], len)
  {
    ForgottenLength(d, s, len);
    var t := Run(d, s, [StartWith(len), StartWith(0), GtCall()]).trace;
    forall es: Trace | t == s.trace + es
      ensures !InBar(es, len)
    {
      assert es[|es| - 1] == t[|t| - 1] && es[|es| - 1] in es;
    }
  }

  /** If a start may also be offered an empty BAR, no run on any device leaves an aligned BAR0 exactly if it reaches
      past the highest register a query asks for, whatever the boot flags. */
  lemma EmptyRestartsFitIff(s: State, len: nat)
    requires !s.mmio && len % 4 == 0
    ensures (forall d: Device, ops: seq<Op> :: MapsOrEmpty(ops, len) ==> StaysWithin(d, s, ops, len))
      <==> len == 0 || len >= QUERY_REACH
  {
    if len == 0 {
      forall d: Device, ops: seq<Op> | MapsOrEmpty(ops, len)
        ensures StaysWithin(d, s, ops, len)
      {
        EmptyBarIsRefused(d, s, ops);
        assert Run(d, s, ops).trace == s.trace + [] && InBar([], len);
      }
    } else if len >= QUERY_REACH {
      forall d: Device, ops: seq<Op> | MapsOrEmpty(ops, len)
        ensures StaysWithin(d, s, ops, len)
      {
        var es := RunWithin(d, s, ops, len);
      }
    } else {
      var d: Device := (_, _) => 0;
      EmptyRestartLeaves(d, s, len);
    }
  }
}

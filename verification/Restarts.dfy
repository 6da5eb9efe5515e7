/** What a second start of a service that was not stopped breaks, and exactly when. */
module Restarts {
  import opened Hardware
  import opened Mmio
  import opened Driver
  import opened Histories
  import opened Registry

  // ---------------------------------------------------------------- the pointer

  /** Starting keeps the pointer backed, whatever the kernel answers, exactly when no pointer was held before. */
  lemma StartIsSafeIff(d: Device, s: State)
    requires PointerBacked(s)
    ensures (forall superOk, isPci, map0, listOk ::
               PointerBacked(Start(d, s, superOk, isPci, map0, listOk).state)) <==> !s.mmio
  {
    if s.mmio {
      assert !PointerBacked(Start(d, s, true, true, None, true).state);
    }
  }

  /** A list allocation failure leaves a mapping behind that a second start can orphan. */
  lemma RestartOrphansPointer(d: Device)
    ensures !PointerBacked(Run(d, INITIAL, [StartOp(true, true, Some(Mapping(0x100_0000, true)), false),
                                            StartOp(true, true, None, true)]))
  {
    var first := StartOp(true, true, Some(Mapping(0x100_0000, true)), false);
    var second := StartOp(true, true, None, true);
    RunTwo(d, INITIAL, first, second);
  }

  // ---------------------------------------------------------------- mappings

  /** Live mappings that the service no longer knows of. */
  function Leaked(s: State): int {
    s.liveMaps - if s.bar0.Some? then 1 else 0
  }

  /** A start that overwrites a held mapping. */
  predicate Overwrites(s: State, op: Op) {
    op.StartOp? && op.superOk && op.isPci && s.bar0.Some?
  }

  function Overwritten(d: Device, s: State, ops: seq<Op>): nat {
    if ops == [] then 0
    else
      var front := ops[..|ops| - 1];
      Overwritten(d, s, front) + if Overwrites(Run(d, s, front), ops[|ops| - 1]) then 1 else 0
  }

  lemma StepLeaks(d: Device, s: State, op: Op)
    ensures Leaked(Step(d, s, op)) == Leaked(s) + if Overwrites(s, op) then 1 else 0
  {
  }

  /** Over any run one mapping is leaked for each start that overwrote a held one, and none is ever recovered. */
  lemma {:induction false} RunLeaks(d: Device, s: State, ops: seq<Op>)
    ensures Leaked(Run(d, s, ops)) == Leaked(s) + Overwritten(d, s, ops)
  {
    if ops != [] {
      RunLeaks(d, s, ops[..|ops| - 1]);
      StepLeaks(d, Run(d, s, ops[..|ops| - 1]), ops[|ops| - 1]);
    }
  }

  /** A failed start adds a mapping exactly when only the list allocation failed. A following stop lets go of that
      mapping, but of one held before only if the start gave up before it asked for BAR0. */
  lemma FailedStart(d: Device, s: State, superOk: bool, isPci: bool, map0: Option<Mapping>, listOk: bool)
    requires !Start(d, s, superOk, isPci, map0, listOk).ok
    ensures var s' := Start(d, s, superOk, isPci, map0, listOk).state;
      && s'.heap == s.heap
      && s'.liveMaps == s.liveMaps + (if superOk && isPci && Usable(map0) then 1 else 0)
      && Stopped(s').liveMaps == (if superOk && isPci then s else Stopped(s)).liveMaps
      && (MappingOk(s) && s.bar0.None? ==>
            s'.boList.None? && s'.liveMaps in {0, 1} && Stopped(s').liveMaps == 0 && !Stopped(s').mmio)
  {
  }

  // ---------------------------------------------------------------- stopping

  /** No later call touches the device, whatever it asks for, until some later start. */
  ghost predicate Quiet(d: Device, s: State) {
    forall ops: seq<Op> :: (forall i :: 0 <= i < |ops| ==> !ops[i].StartOp?) ==> Run(d, s, ops).trace == s.trace
  }

  function RegsCall(): Op {
    CallOp(3, Some(Args([], 8)), PlainEnv())
  }

  lemma MappedRegsCallReads(d: Device, s: State)
    requires s.mmio
    ensures |Step(d, s, RegsCall()).trace| > |s.trace|
  {
    assert METHODS[3] == RegsSelector;
    assert s.trace + BarReadsTo(d, s.trace, s.bar0Length, SAFE_REGISTERS, 0).events == s.trace;
    assert BarRead(d, s.trace, true, s.bar0Length, SAFE_REGISTERS[0]).events != [];
    BarReadsGrow(d, s.trace, s.bar0Length, SAFE_REGISTERS, 1, 8);
  }

  lemma {:induction false} BarReadsGrow(d: Device, t: Trace, len: nat, offs: seq<Register>, j: nat, k: nat)
    requires j <= k <= |offs|
    ensures |BarReadsTo(d, t, len, offs, j).events| <= |BarReadsTo(d, t, len, offs, k).events|
  {
    if j < k {
      BarReadsGrow(d, t, len, offs, j, k - 1);
    }
  }

  /** A stop brings the service down, and calls after it leave the device alone, exactly if the register pointer was
      null or its mapping was still held. */
  lemma StopSilencesIff(d: Device, s: State)
    ensures Down(Stopped(s)) <==> !s.mmio || s.bar0.Some?
    ensures Quiet(d, Stopped(s)) <==> !s.mmio || s.bar0.Some?
  {
    if !s.mmio || s.bar0.Some? {
      forall ops: seq<Op> | forall i :: 0 <= i < |ops| ==> !ops[i].StartOp?
        ensures Run(d, Stopped(s), ops).trace == Stopped(s).trace
      {
        StaysDown(d, s, ops);
      }
    } else {
      var ops := [RegsCall()];
      RunOne(d, Stopped(s), RegsCall());
      MappedRegsCallReads(d, Stopped(s));
      assert Run(d, Stopped(s), ops).trace != Stopped(s).trace;
    }
  }

  const FAILED_RESTART := StartOp(true, true, None, true)

  /** A start, a failing second start and a stop leave the register pointer set. */
  lemma StopKeepsOrphan(d: Device)
    ensures Run(d, INITIAL, [PLAIN_START, FAILED_RESTART, StopOp]) ==
      Step(d, INITIAL, PLAIN_START).(bar0 := None, boList := None)
    ensures Run(d, INITIAL, [PLAIN_START, FAILED_RESTART, StopOp]).mmio
  {
    var ops := [PLAIN_START, FAILED_RESTART, StopOp];
    assert ops[..2] == [PLAIN_START, FAILED_RESTART];
    RunTwo(d, INITIAL, PLAIN_START, FAILED_RESTART);
  }

  /** A submission after that stop writes to the device. */
  lemma WriteAfterStop(d: Device) returns (es: Trace)
    ensures var ops := [PLAIN_START, FAILED_RESTART, StopOp];
      Run(d, INITIAL, ops + [SubmitCall()]).trace == Run(d, INITIAL, ops).trace + es && !NoWrites(es)
  {
    var ops := [PLAIN_START, FAILED_RESTART, StopOp];
    var s := Run(d, INITIAL, ops);
    StopKeepsOrphan(d);
    RunAppend(d, INITIAL, ops, [SubmitCall()]);
    RunOne(d, s, SubmitCall());
    SubmitCallSubmits(d, s);
    es := SubmitWritesIff(d, s, PlainEnv());
  }

  // ---------------------------------------------------------------- buffers and cookies

  /** Starting loses no buffer, whatever the kernel answers, exactly when no buffer was listed before. */
  lemma StartLosesNothingIff(d: Device, s: State)
    requires RegistryOk(s)
    ensures (forall superOk, isPci, map0, listOk ::
               RegistryOk(Start(d, s, superOk, isPci, map0, listOk).state)) <==> s.boList.None? || s.boList.value == []
  {
    if s.boList.Some? && s.boList.value != [] {
      var s' := Start(d, s, true, true, Some(Mapping(4, true)), true).state;
      var id := s.boList.value[0];
      assert s.heap[id].refs == 2 && s'.heap[id] == s.heap[id] && !Registered(s', id);
    }
  }

  /** Starting keeps every cookie, whatever the kernel answers, exactly when no buffer was listed before. */
  lemma StartKeepsCookiesIff(d: Device, s: State)
    requires ListOk(s)
    ensures (forall superOk, isPci, map0, listOk, c: uint64 :: BoFromCookie(s.boList, c).Some? ==>
               BoFromCookie(Start(d, s, superOk, isPci, map0, listOk).state.boList, c) == BoFromCookie(s.boList, c))
      <==> s.boList.None? || s.boList.value == []
  {
    if s.boList.Some? && s.boList.value != [] {
      var s' := Start(d, s, true, true, Some(Mapping(4, true)), true).state;
      assert BoFromCookie(s.boList, 1).Some? && BoFromCookie(s'.boList, 1) == None;
    }
  }

  /** Referenced, but by nothing that a stop would release. */
  predicate Lost(s: State, id: nat) {
    id < |s.heap| && s.heap[id].refs == 2 && !Registered(s, id)
  }

  lemma StepKeepsLost(d: Device, s: State, op: Op, id: nat)
    requires ListOk(s) && Lost(s, id)
    ensures Lost(Step(d, s, op), id)
  {
    if op.StopOp? {
      StopReleases(s);
    }
  }

  /** No run, not even with stops, ever releases a lost buffer or lists it again. */
  lemma {:induction false} LostForever(d: Device, s: State, ops: seq<Op>, id: nat)
    requires ListOk(s) && Lost(s, id)
    ensures Lost(Run(d, s, ops), id)
  {
    if ops != [] {
      var front := ops[..|ops| - 1];
      LostForever(d, s, front, id);
      RunKeepsBuffers(d, s, front);
      StepKeepsLost(d, Run(d, s, front), ops[|ops| - 1], id);
    }
  }

  function CreateCall(): Op {
    CallOp(0, Some(Args([4096], 1)), PlainEnv())
  }

  /** A start, a create and a second start lose the buffer, and the cookie just issued names nothing. */
  lemma RestartLosesBuffer(d: Device)
    ensures var ops := [PLAIN_START, CreateCall(), PLAIN_START];
      && BoFromCookie(Run(d, INITIAL, ops[..2]).boList, 1) == Some(0)
      && Lost(Run(d, INITIAL, ops), 0) && BoFromCookie(Run(d, INITIAL, ops).boList, 1) == None
  {
    var ops := [PLAIN_START, CreateCall(), PLAIN_START];
    assert ops[..2] == [PLAIN_START, CreateCall()];
    RunTwo(d, INITIAL, PLAIN_START, CreateCall());
    assert METHODS[0] == CreateSelector;
  }
}

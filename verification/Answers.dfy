/** What each operation answers, in terms of the request and the device alone. */
module Answers {
  import opened Hardware
  import opened Mmio
  import opened BootArgs
  import opened CommandStream
  import opened Driver
  import opened Registry
  import opened Sizes
  import opened Transcripts

  // ---------------------------------------------------------------- register queries

  /** The registers that selectors 3, 4 and 5 deliver, in this order. */
  function QueryList(selector: uint32): seq<nat> {
    if selector == 3 then [0x0, 0x4, 0x10, 0x14, 0x100, 0x104, 0xA024, 0xA094]
    else if selector == 4 then [0x45400, 0x45404, 0xA094, 0xA090, 0xA024, 0xA18C, 0xA168, 0x138108]
    else [0x70008, 0x60400, 0x64000, 0x70180, 0x60000, 0x6000C, 0x6001C, 0xC7200]
  }

  lemma QueryAsks(d: Device, s: State, offs: seq<Register>, k: nat)
    requires k <= |offs| && s.mmio
    ensures var q := Query(d, s, offs, k); var talk := Ask(d, s.trace, s.bar0Length, offs[..k]);
      q.state == s.(trace := s.trace + talk.events) && q.code == Success && q.values == talk.answers
  {
    BarReadsAsk(d, s.trace, s.bar0Length, offs, k);
  }

  /** A register query of a service with a pointer asks for eight registers in order and delivers each answer as a
      number below 2^32, or 0xBAD0FFFF for a register past the BAR; without a pointer it is refused. */
  lemma RegisterAnswers(d: Device, s: State, selector: uint32, env: Env)
    requires 3 <= selector <= 5
    ensures var r := ExternalMethod(d, s, selector, Some(Args([], 8)), env);
      if !s.mmio then r == Called(s, Reply(NotReady, []))
      else
        var talk := Ask(d, s.trace, s.bar0Length, QueryList(selector));
        && r.state == s.(trace := s.trace + talk.events)
        && r.reply.code == Success && |r.reply.outputs| == 8
        && forall i :: 0 <= i < 8 ==> r.reply.outputs[i] == talk.answers[i] as int
  {
    assert METHODS[3] == RegsSelector && METHODS[4] == GtSelector && METHODS[5] == DisplaySelector;
    assert SAFE_REGISTERS[..8] == QueryList(3);
    assert GT_CONFIG[..8] == QueryList(4) && DISPLAY_INFO[..8] == QueryList(5);
    if s.mmio {
      QueryAsks(d, s, SAFE_REGISTERS, 8);
      QueryAsks(d, s, GT_CONFIG, 8);
      QueryAsks(d, s, DISPLAY_INFO, 8);
    }
  }

  /** In plain terms: scalar i is the device's answer to the i-th register after the i reads before it. */
  lemma {:induction false} AskedAnswer(d: Device, t: Trace, limit: nat, offs: seq<nat>, i: nat)
    requires i < |offs|
    ensures Ask(d, t, limit, offs).answers[i] ==
      if limit > 0 && offs[i] >= limit then 0xBAD0_FFFF else d(t + Ask(d, t, limit, offs[..i]).events, offs[i])
    decreases |offs|
  {
    if i == |offs| - 1 {
      AskLast(d, t, limit, offs[..i], offs[i]);
      assert offs == offs[..i] + [offs[i]];
    } else {
      var n := |offs| - 1;
      AskedAnswer(d, t, limit, offs[..n], i);
      AskLast(d, t, limit, offs[..n], offs[n]);
      assert offs == offs[..n] + [offs[n]] && offs[..n][..i] == offs[..i];
    }
  }

  /** The service's allow-list has ten registers, of which a request gets the first, as many as it counts. */
  lemma AllowListAnswers(d: Device, s: State, count: uint32)
    requires s.mmio
    ensures var k := if count < 10 then count else 10;
      var q := Query(d, s, SAFE_REGISTERS, SafeCount(count));
      var talk := Ask(d, s.trace, s.bar0Length,
                      [0x0, 0x4, 0x10, 0x14, 0x100, 0x104, 0xA024, 0xA094, 0x45400, 0x45404][..k]);
      q.values == talk.answers && q.state.trace == s.trace + talk.events
  {
    QueryAsks(d, s, SAFE_REGISTERS, SafeCount(count));
  }

  // ---------------------------------------------------------------- buffers

  /** A new buffer of this size with these references and whatever the kernel left in it. */
  predicate Made(bo: Buffer, bytes: nat, refs: int, env: Env) {
    && bo.bytes == bytes && bo.refs == refs && bo.addressed == env.addressed
    && |bo.data| == bytes / 4 && forall i :: 0 <= i < |bo.data| ==> bo.data[i] == env.fill(i)
  }

  /** What a create does to the service, and with which code, on every exit. */
  lemma CreateAnswers(d: Device, s: State, request: uint64, env: Env) returns (bo: Buffer)
    ensures var r := ExternalMethod(d, s, 0, Some(Args([request], 1)), env);
      if s.boList.None? then r == Called(s, Reply(NotReady, []))
      else if !env.memory then r == Called(s, Reply(NoResources, []))
      else if !env.inserted || |s.boList.value| >= 0xFFFF_FFFF then
        && Granted(request, bo.bytes) && Made(bo, bo.bytes, 0, env)
        && r == Called(s.(heap := s.heap + [bo]), Reply(NoResources, []))
      else
        && Granted(request, bo.bytes) && Made(bo, bo.bytes, 2, env)
        && r == Called(s.(heap := s.heap + [bo], boList := Some(s.boList.value + [|s.heap|])),
                       Reply(Success, [|s.boList.value| + 1]))
  {
    var heap := CreateBuffer(s, ClampSize(request), env).state.heap;
    bo := if |heap| > |s.heap| then heap[|s.heap|] else Buffer(0, false, 0, []);
    assert METHODS[0] == CreateSelector;
    ClampedSize(request);
  }

  // ---------------------------------------------------------------- submissions and waiting

  /** The code of a submission on every exit, and that only a success reaches the device. */
  lemma SubmitAnswers(d: Device, s: State, env: Env)
    ensures var r := ExternalMethod(d, s, 1, Some(Args([], 0)), env);
      && r.reply.outputs == []
      && r.reply.code == (if !s.mmio then NotReady
                          else if !env.memory then NoResources
                          else if s.flags.disableCommandStream || s.flags.strictSafe then NotReady
                          else if !env.addressed then NoMemory
                          else Success)
      && r.state == s.(trace := r.state.trace, heap := r.state.heap)
      && (!s.mmio || !env.memory ==> r.state.heap == s.heap)
      && (r.reply.code != Success ==> r.state.trace == s.trace)
  {
    assert METHODS[1] == SubmitSelector;
    assert s.trace + [] == s.trace;
  }

  /** A wait succeeds at once in every state. */
  lemma WaitAnswers(d: Device, s: State, timeout: uint64, env: Env)
    ensures ExternalMethod(d, s, 2, Some(Args([timeout], 0)), env) == Called(s, Reply(Success, []))
  {
    assert METHODS[2] == WaitSelector;
  }

  /** The command stream's own codes, in the order of its tests. */
  lemma SubmitCodes(mapped: bool, flags: Flags, bo: Option<Buffer>)
    ensures var code := SubmitCode(mapped, flags, bo); var barred := flags.disableCommandStream || flags.strictSafe;
      && (code == NotReady <==> !mapped || (bo.Some? && barred))
      && (code == BadArgument <==> mapped && bo.None?)
      && (code == NoMemory <==> mapped && bo.Some? && !barred && !bo.value.addressed)
      && (code == NoSpace <==> mapped && bo.Some? && !barred && bo.value.addressed && bo.value.bytes < 16)
      && (code == Success <==> mapped && bo.Some? && !barred && bo.value.addressed && bo.value.bytes >= 16)
  {
  }

  // ---------------------------------------------------------------- init and start

  /** Init only ever adds the flags that its boot text mentions, and only if its superclass agrees. */
  lemma InitAnswers(d: Device, s: State, superOk: bool, arg: Option<string>)
    ensures var f := Step(d, s, InitOp(superOk, arg)).flags;
      Step(d, s, InitOp(superOk, arg)) == s.(flags := f) &&
      if !superOk || arg.None? then f == s.flags
      else
        && (f.verbose <==> s.flags.verbose || Mentions(arg.value, "verbose"))
        && (f.disableForcewake <==>
              s.flags.disableForcewake || Mentions(arg.value, "noforcewake") || Mentions(arg.value, "strictsafe"))
        && (f.disableCommandStream <==>
              s.flags.disableCommandStream || Mentions(arg.value, "nocs") || Mentions(arg.value, "strictsafe"))
        && (f.strictSafe <==> s.flags.strictSafe || Mentions(arg.value, "strictsafe"))
  {
    if arg.Some? {
      TextFlagsMeaning(arg.value);
    }
  }

  /** A start succeeds exactly if every step of it does. Once it has a usable mapping it holds that and has made all of
      its bring-up reads, even if it then gets no list; before that it touches neither device, list nor buffers. */
  lemma StartAnswers(d: Device, s: State, superOk: bool, isPci: bool, map0: Option<Mapping>, listOk: bool)
    ensures var r := Start(d, s, superOk, isPci, map0, listOk); var asked := superOk && isPci;
      && (r.ok <==> asked && Usable(map0) && listOk)
      && r.state.flags == s.flags && r.state.heap == s.heap
      && if asked && Usable(map0) then
           var len := map0.value.length;
           && r.state.bar0 == Some(len) && r.state.bar0Length == len && r.state.mmio
           && r.state.liveMaps == s.liveMaps + 1 && r.state.boList == (if listOk then Some([]) else None)
           && r.state.trace == s.trace + BringUpTalk(d, s.trace, s.flags.strictSafe, len)
         else
           && r.state.trace == s.trace && r.state.boList == s.boList && r.state.liveMaps == s.liveMaps
           && r.state.bar0 == (if asked then None else s.bar0)
           && r.state.mmio == (s.mmio && !(asked && map0.Some? && map0.value.length > 0))
           && r.state.bar0Length == (if asked && map0.Some? then map0.value.length else s.bar0Length)
  {
    if Usable(map0) {
      BringUpTranscript(d, s.trace, s.flags, map0.value.length);
    }
  }
}

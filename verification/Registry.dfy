/** Mapping, buffer ownership and cookies over whole runs. */
module Registry {
  import opened Hardware
  import opened Mmio
  import opened CommandStream
  import opened Driver

  // ---------------------------------------------------------------- invariant

  /** A non-null register pointer means a live mapping of the recorded, non-zero length. */
  predicate PointerBacked(s: State) {
    s.mmio ==> s.bar0.Some? && s.bar0Length == s.bar0.value > 0
  }

  predicate MappingOk(s: State) {
    && PointerBacked(s)
    && (s.bar0.Some? ==> s.mmio)
    && s.liveMaps == (if s.bar0.Some? then 1 else 0)
    && (s.boList.Some? ==> s.mmio)
  }

  predicate Registered(s: State, id: nat) {
    s.boList.Some? && id in s.boList.value
  }

  /** Positions are listed in creation order, each once. */
  ghost predicate Increasing(ids: seq<nat>, bound: nat) {
    && (forall i :: 0 <= i < |ids| ==> ids[i] < bound)
    && (forall i, j :: 0 <= i < j < |ids| ==> ids[i] < ids[j])
  }

  ghost predicate RegistryOk(s: State) {
    && (s.boList.Some? ==> Increasing(s.boList.value, |s.heap|) && |s.boList.value| <= MAX_COUNT)
    && (forall id :: 0 <= id < |s.heap| ==> s.heap[id].refs == if Registered(s, id) then 2 else 0)
  }

  ghost predicate Inv(s: State) {
    MappingOk(s) && RegistryOk(s)
  }

  /** What holds however often a service is started: listed buffers have two references, all others none,
      or two if a second start lost the list that held them. */
  ghost predicate ListOk(s: State) {
    && (s.boList.Some? ==> Increasing(s.boList.value, |s.heap|) && |s.boList.value| <= MAX_COUNT)
    && (forall id :: 0 <= id < |s.heap| ==>
          s.heap[id].refs == 2 || (s.heap[id].refs == 0 && !Registered(s, id)))
  }

  /** Starting is only ever asked of a service that holds no mapping, as the I/O framework does. */
  ghost predicate Legal(d: Device, s: State, ops: seq<Op>) {
    forall i :: 0 <= i < |ops| && ops[i].StartOp? ==> Run(d, s, ops[..i]).bar0.None?
  }

  // ---------------------------------------------------------------- steps

  lemma {:induction false} ReleaseAllRefs(heap: seq<Buffer>, ids: seq<nat>)
    requires Increasing(ids, |heap|)
    ensures forall j :: 0 <= j < |heap| ==>
      ReleaseAll(heap, ids)[j] == heap[j].(refs := heap[j].refs - if j in ids then 1 else 0)
  {
    if ids != [] {
      var front, last := ids[..|ids| - 1], ids[|ids| - 1];
      ReleaseAllRefs(heap, front);
      assert last !in front;
      assert ids == front + [last];
    }
  }

  /** A stop takes both references of every listed buffer and leaves everything else about all buffers alone. */
  lemma StopReleases(s: State)
    requires ListOk(s)
    ensures |Stopped(s).heap| == |s.heap| && ListOk(Stopped(s))
    ensures forall id :: 0 <= id < |s.heap| ==>
      Stopped(s).heap[id] == if Registered(s, id) then s.heap[id].(refs := 0) else s.heap[id]
  {
    if s.boList.Some? {
      ReleaseAllRefs(s.heap, s.boList.value);
      ReleaseAllRefs(ReleaseAll(s.heap, s.boList.value), s.boList.value);
    }
  }

  lemma StopKeepsInv(s: State)
    requires Inv(s)
    ensures Inv(Stopped(s)) && Stopped(s).boList.None? && Stopped(s).bar0.None?
    ensures |Stopped(s).heap| == |s.heap|
    ensures forall id :: 0 <= id < |s.heap| ==> Stopped(s).heap[id] == s.heap[id].(refs := 0)
  {
    StopReleases(s);
  }

  lemma StartKeepsInv(d: Device, s: State, superOk: bool, isPci: bool, map0: Option<Mapping>, listOk: bool)
    requires Inv(s) && s.bar0.None?
    ensures Inv(Start(d, s, superOk, isPci, map0, listOk).state)
  {
  }

  lemma CreateKeepsInv(s: State, bytes: uint32, env: Env)
    requires Inv(s)
    ensures Inv(CreateBuffer(s, bytes, env).state)
  {
    var s' := CreateBuffer(s, bytes, env).state;
    if s'.boList != s.boList {
      assert s'.boList.value == s.boList.value + [|s.heap|];
    }
  }

  lemma SubmitKeepsInv(d: Device, s: State, env: Env)
    requires Inv(s)
    ensures Inv(Submit(d, s, env).state)
  {
  }

  lemma StepKeepsInv(d: Device, s: State, op: Op)
    requires Inv(s) && (op.StartOp? ==> s.bar0.None?)
    ensures Inv(Step(d, s, op))
  {
    match op
    case InitOp(_, _) =>
    case StartOp(superOk, isPci, map0, listOk) => StartKeepsInv(d, s, superOk, isPci, map0, listOk);
    case StopOp => StopKeepsInv(s);
    case CallOp(selector, args, env) =>
      if selector == 0 && args.Some? && |args.value.input| == 1 {
        CreateKeepsInv(s, ClampSize(args.value.input[0]), env);
      } else if selector == 1 {
        SubmitKeepsInv(d, s, env);
      }
  }

  /** In every reachable state the pointer is backed and every buffer ever allocated has two references
      while registered and none otherwise. */
  lemma {:induction false} RunKeepsInv(d: Device, s: State, ops: seq<Op>)
    requires Inv(s) && Legal(d, s, ops)
    ensures Inv(Run(d, s, ops))
  {
    if ops != [] {
      var front := ops[..|ops| - 1];
      assert forall i :: 0 <= i < |front| ==> front[..i] == ops[..i];
      RunKeepsInv(d, s, front);
      StepKeepsInv(d, Run(d, s, front), ops[|ops| - 1]);
    }
  }

  // ---------------------------------------------------------------- every run

  /** The same buffer later on: size, address and contents as before; references as before, or both given up. */
  predicate SameBuffer(before: Buffer, after: Buffer) {
    after == before || (before.refs == 2 && after == before.(refs := 0))
  }

  ghost predicate BuffersKept(s: State, s': State) {
    |s.heap| <= |s'.heap| && forall id :: 0 <= id < |s.heap| ==> SameBuffer(s.heap[id], s'.heap[id])
  }

  lemma CreateKeepsBuffers(s: State, bytes: uint32, env: Env)
    requires ListOk(s)
    ensures var s' := CreateBuffer(s, bytes, env).state; ListOk(s') && BuffersKept(s, s')
  {
    var s' := CreateBuffer(s, bytes, env).state;
    if s'.boList != s.boList {
      assert s'.boList.value == s.boList.value + [|s.heap|];
    }
  }

  lemma SubmitKeepsBuffers(d: Device, s: State, env: Env)
    requires ListOk(s)
    ensures var s' := Submit(d, s, env).state; ListOk(s') && BuffersKept(s, s')
  {
  }

  lemma CallKeepsBuffers(d: Device, s: State, m: Selector, args: Args, env: Env)
    requires ListOk(s) && Fits(args, m)
    ensures var s' := Dispatch(d, s, m, args, env).state; ListOk(s') && BuffersKept(s, s')
  {
    if m == CreateSelector {
      CreateKeepsBuffers(s, ClampSize(args.input[0]), env);
    } else if m == SubmitSelector {
      SubmitKeepsBuffers(d, s, env);
    }
  }

  lemma StartKeepsBuffers(d: Device, s: State, superOk: bool, isPci: bool, map0: Option<Mapping>, listOk: bool)
    requires ListOk(s)
    ensures var s' := Start(d, s, superOk, isPci, map0, listOk).state; ListOk(s') && BuffersKept(s, s')
  {
  }

  lemma StepKeepsBuffers(d: Device, s: State, op: Op)
    requires ListOk(s)
    ensures ListOk(Step(d, s, op)) && BuffersKept(s, Step(d, s, op))
  {
    match op
    case InitOp(_, _) =>
    case StartOp(superOk, isPci, map0, listOk) => StartKeepsBuffers(d, s, superOk, isPci, map0, listOk);
    case StopOp => StopReleases(s);
    case CallOp(selector, args, env) =>
      if selector < |METHODS| && args.Some? && Fits(args.value, METHODS[selector]) {
        CallKeepsBuffers(d, s, METHODS[selector], args.value, env);
      }
  }

  /** In every run, legal or not, no buffer ever changes size or contents after the operation that made it,
      and its references only ever go from two to none. */
  lemma {:induction false} RunKeepsBuffers(d: Device, s: State, ops: seq<Op>)
    requires ListOk(s)
    ensures ListOk(Run(d, s, ops)) && BuffersKept(s, Run(d, s, ops))
  {
    if ops != [] {
      var s' := Run(d, s, ops[..|ops| - 1]);
      RunKeepsBuffers(d, s, ops[..|ops| - 1]);
      StepKeepsBuffers(d, s', ops[|ops| - 1]);
      forall id | 0 <= id < |s.heap|
        ensures SameBuffer(s.heap[id], Step(d, s', ops[|ops| - 1]).heap[id])
      {
        assert SameBuffer(s.heap[id], s'.heap[id]);
      }
    }
  }

  /** A buffer without references is never touched again: not written, not released, not listed, in any run. */
  lemma UnreferencedIsFinal(d: Device, s: State, ops: seq<Op>, id: nat)
    requires ListOk(s) && id < |s.heap| && s.heap[id].refs == 0
    ensures var s' := Run(d, s, ops);
      id < |s'.heap| && s'.heap[id] == s.heap[id] && !Registered(s', id)
  {
    RunKeepsBuffers(d, s, ops);
    assert SameBuffer(s.heap[id], Run(d, s, ops).heap[id]);
  }

  // ---------------------------------------------------------------- cookies

  /** The narrowing of the index loses nothing. */
  lemma CookieAt(ids: seq<nat>, c: uint64)
    requires |ids| <= MAX_COUNT
    ensures BoFromCookie(Some(ids), c) == if 1 <= c <= |ids| then Some(ids[c - 1]) else None
  {
  }

  /** Cookies 1..N name the N registered buffers one to one and in creation order: cookie c names the c-th of them.
      No other 64-bit value names anything. */
  lemma CookieBijection(s: State)
    requires ListOk(s)
    ensures var n := if s.boList.Some? then |s.boList.value| else 0;
      && (forall c: uint64 :: BoFromCookie(s.boList, c).Some? <==> 1 <= c <= n)
      && (forall c: uint64 :: 1 <= c <= n ==> BoFromCookie(s.boList, c) == Some(s.boList.value[c - 1]))
      && (forall c: uint64, c': uint64 :: 1 <= c < c' <= n ==>
            BoFromCookie(s.boList, c).value < BoFromCookie(s.boList, c').value)
      && (forall id: nat :: Registered(s, id) ==>
            exists c: uint64 :: 1 <= c <= n && BoFromCookie(s.boList, c) == Some(id))
  {
    if s.boList.Some? {
      var ids := s.boList.value;
      forall c: uint64
        ensures BoFromCookie(s.boList, c) == if 1 <= c <= |ids| then Some(ids[c - 1]) else None
      {
        CookieAt(ids, c);
      }
      forall id | id in ids
        ensures exists c: uint64 :: 1 <= c <= |ids| && BoFromCookie(s.boList, c) == Some(id)
      {
        var k :| 0 <= k < |ids| && ids[k] == id;
        var c: uint64 := k + 1;
        assert BoFromCookie(s.boList, c) == Some(id);
      }
    }
  }

  /** A successful create issues the next cookie, which names the buffer just made. */
  lemma CreateIssuesCookie(s: State, bytes: uint32, env: Env)
    requires ListOk(s) && CreateBuffer(s, bytes, env).code == Success
    ensures var r := CreateBuffer(s, bytes, env);
      && BoFromCookie(r.state.boList, r.cookie) == Some(|s.heap|)
      && BoFromCookie(s.boList, r.cookie) == None
      && r.state.heap == s.heap + [Fresh(PageAlign(bytes), env).(refs := 2)]
  {
  }

  predicate Usable(map0: Option<Mapping>) {
    map0.Some? && map0.value.length > 0 && map0.value.addressed
  }

  /** A start that gets as far as making a new list. */
  predicate Remaps(op: Op) {
    op.StartOp? && op.superOk && op.isPci && Usable(op.map0)
  }

  lemma StepKeepsCookie(d: Device, s: State, op: Op, cookie: uint64)
    requires ListOk(s) && !op.StopOp? && !Remaps(op)
    requires BoFromCookie(s.boList, cookie).Some?
    ensures var s' := Step(d, s, op); var found := BoFromCookie(s.boList, cookie);
      && BoFromCookie(s'.boList, cookie) == found
      && found.value < |s.heap| <= |s'.heap| && s'.heap[found.value] == s.heap[found.value]
  {
    CookieBijection(s);
  }

  /** Until the next stop or start that maps BAR0, a cookie keeps naming the same buffer, whose size, contents and
      references do not change. */
  lemma {:induction false} CookieIsStable(d: Device, s: State, ops: seq<Op>, cookie: uint64)
    requires ListOk(s) && forall i :: 0 <= i < |ops| ==> !ops[i].StopOp? && !Remaps(ops[i])
    requires BoFromCookie(s.boList, cookie).Some?
    ensures var s' := Run(d, s, ops); var found := BoFromCookie(s.boList, cookie);
      && BoFromCookie(s'.boList, cookie) == found
      && found.value < |s.heap| <= |s'.heap| && s'.heap[found.value] == s.heap[found.value]
  {
    if ops == [] {
      CookieBijection(s);
    } else {
      var front := ops[..|ops| - 1];
      CookieIsStable(d, s, front, cookie);
      RunKeepsBuffers(d, s, front);
      StepKeepsCookie(d, Run(d, s, front), ops[|ops| - 1], cookie);
    }
  }

  /** A legal run has no start between a service's holding buffers and its next stop. */
  lemma {:induction false} ListedMeansStarted(d: Device, s: State, ops: seq<Op>)
    requires Inv(s) && s.boList.Some? && Legal(d, s, ops) && forall i :: 0 <= i < |ops| ==> !ops[i].StopOp?
    ensures Run(d, s, ops).boList.Some? && forall i :: 0 <= i < |ops| ==> !ops[i].StartOp?
  {
    if ops != [] {
      var front := ops[..|ops| - 1];
      assert forall i :: 0 <= i < |front| ==> front[..i] == ops[..i];
      ListedMeansStarted(d, s, front);
      RunKeepsInv(d, s, front);
      assert !ops[|ops| - 1].StartOp?;
    }
  }

  /** In a legal run a cookie is good until the next stop. */
  lemma LegalCookieIsStable(d: Device, s: State, ops: seq<Op>, cookie: uint64)
    requires Inv(s) && Legal(d, s, ops) && forall i :: 0 <= i < |ops| ==> !ops[i].StopOp?
    requires BoFromCookie(s.boList, cookie).Some?
    ensures var s' := Run(d, s, ops); var found := BoFromCookie(s.boList, cookie);
      && BoFromCookie(s'.boList, cookie) == found
      && found.value < |s.heap| <= |s'.heap| && s'.heap[found.value] == s.heap[found.value]
  {
    ListedMeansStarted(d, s, ops);
    CookieIsStable(d, s, ops, cookie);
  }

  // ---------------------------------------------------------------- submissions and replies

  /** A submission leaves one unreferenced page behind. It succeeds exactly if nothing on the way refuses, and then the
      page holds three no-ops, the batch end and its old contents; otherwise all of its old contents. */
  lemma SubmitLeavesBatch(d: Device, s: State, env: Env)
    requires s.mmio && env.memory
    ensures var r := Submit(d, s, env); var bo := r.state.heap[|s.heap|];
      && |r.state.heap| == |s.heap| + 1 && r.state.heap[..|s.heap|] == s.heap
      && bo.refs == 0 && bo.bytes == PAGE && |bo.data| == 1024
      && (r.code == Success <==> env.addressed && !s.flags.disableCommandStream && !s.flags.strictSafe)
      && (forall i :: 0 <= i < 1024 ==>
            bo.data[i] == if r.code != Success || i > 3 then env.fill(i) else if i == 3 then 0x0A00_0000 else 0)
  {
    var data := Fresh(PAGE, env).data;
    assert |data| == 1024;
    assert forall i :: 4 <= i < 1024 ==> data[4..][i - 4] == data[i];
  }

  predicate Fits(args: Args, m: Selector) {
    |args.input| == InputCount(m) && args.outputs == OutputCount(m)
  }

  /** The counts in the table rows of selectors 0 to 5: create takes and gives one scalar, wait takes one, and each of
      the three register queries gives eight. */
  predicate WellFormed(selector: uint32, args: Args) {
    && |args.input| == (if selector == 0 || selector == 2 then 1 else 0)
    && args.outputs == (if selector == 0 then 1 else if selector < 3 then 0 else 8)
  }

  /** Unknown selectors and wrong counts are told apart by their code and change nothing; every other call gets
      exactly the outputs its table row announces if it succeeds, and none if it fails. */
  lemma RepliesFit(d: Device, s: State, selector: uint32, args: Option<Args>, env: Env)
    ensures var r := ExternalMethod(d, s, selector, args, env);
      && (r.reply.code == Unsupported <==> selector >= 6)
      && (r.reply.code == BadArgument <==> selector < 6 && !(args.Some? && WellFormed(selector, args.value)))
      && (r.reply.code in {Unsupported, BadArgument} ==> r.state == s)
      && |r.reply.outputs| == (if r.reply.code == Success then args.value.outputs else 0)
  {
    assert METHODS[0] == CreateSelector && METHODS[1] == SubmitSelector && METHODS[2] == WaitSelector;
    assert METHODS[3] == RegsSelector && METHODS[4] == GtSelector && METHODS[5] == DisplaySelector;
  }

  // ---------------------------------------------------------------- after stop

  /** Nothing is mapped, registered or referenced. */
  ghost predicate Down(s: State) {
    !s.mmio && s.boList.None? && s.bar0.None?
  }

  /** A service that is down answers every well-formed call but wait with NotReady and touches nothing. */
  lemma DownAnswers(d: Device, s: State, selector: uint32, args: Args, env: Env)
    requires Down(s) && selector < 6 && WellFormed(selector, args)
    ensures ExternalMethod(d, s, selector, Some(args), env) ==
      Called(s, Reply(if selector == 2 then Success else NotReady, []))
  {
    assert METHODS[0] == CreateSelector && METHODS[1] == SubmitSelector && METHODS[2] == WaitSelector;
    assert METHODS[3] == RegsSelector && METHODS[4] == GtSelector && METHODS[5] == DisplaySelector;
  }

  /** Every checked read of a service that is down returns the null sentinel and touches nothing. */
  ghost predicate ReadsNothing(d: Device, s: State) {
    forall off: uint32 :: BarRead(d, s.trace, s.mmio, s.bar0Length, off) == Access([], SENTINEL_NULL_MMIO)
  }

  /** After a stop that brings the service down, and until some later start, calls leave the device and every buffer
      and mapping alone. In a legal run every stop does, and no mapping is then left. */
  lemma {:induction false} StaysDown(d: Device, s: State, ops: seq<Op>)
    requires !s.mmio || s.bar0.Some?
    requires forall i :: 0 <= i < |ops| ==> !ops[i].StartOp?
    ensures var s' := Run(d, Stopped(s), ops);
      && Down(s') && s'.trace == s.trace && s'.heap == Stopped(s).heap && ReadsNothing(d, s')
      && s'.liveMaps == Stopped(s).liveMaps && (MappingOk(s) ==> s'.liveMaps == 0)
  {
    if ops != [] {
      StaysDown(d, s, ops[..|ops| - 1]);
    }
  }
}

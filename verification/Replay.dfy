/** The objects refine the state machine over whole runs. */
module Replay {
  import opened Hardware
  import opened Mmio
  import opened BootArgs
  import opened Driver
  import opened Registry
  import opened Guard
  import opened Service
  import opened UserClient

  /** A boot text is what fits the 128-byte buffer of the parser. */
  predicate TextFits(op: Op) {
    op.InitOp? && op.arg.Some? ==> |op.arg.value| < 128 && '\0' !in op.arg.value
  }

  /** Everything the service holds was made after this method was called. */
  twostate predicate AllNew(new svc: XeService)
    reads svc
  {
    && fresh(svc) && fresh(svc.boot) && fresh(svc.bar)
    && (svc.boList != null ==> fresh(svc.boList))
    && forall i :: 0 <= i < |svc.heap| ==> fresh(svc.heap[i])
  }

  /** A well-formed argument block for these arguments. */
  method Pack(args: Args) returns (block: Arguments)
    ensures fresh(block) && block.Valid() && block.Value() == args && |block.scalarOutput| == args.outputs
  {
    block := new Arguments(args.input, |args.input|, seq(args.outputs, _ => 0), args.outputs);
    assert args.input[..|args.input|] == args.input;
  }

  /** How many scalars a reply carries. */
  lemma ReplyLength(device: Device, s: State, selector: uint32, args: Args, env: Env)
    ensures var r := ExternalMethod(device, s, selector, Some(args), env).reply;
      |r.outputs| == if r.code == Success then args.outputs else 0
  {
    RepliesFit(device, s, selector, Some(args), env);
  }

  /** One call with an argument block, with the reply read back from it. */
  method CallWith(svc: XeService, client: XeUserClient, selector: uint32, args: Args, env: Env)
    returns (reply: Reply)
    requires svc.Valid() && client.providerSvc == svc
    modifies svc, svc.bar, svc.boList
    ensures svc.Valid() && svc.boList == old(svc.boList) && svc.Grew()
    ensures Called(svc.Abs(), reply) == ExternalMethod(svc.bar.device, old(svc.Abs()), selector, Some(args), env)
  {
    ReplyLength(svc.bar.device, svc.Abs(), selector, args, env);
    var block := Pack(args);
    var code := client.ExternalMethod(selector, block, env);
    reply := Reply(code, if code == Success then block.scalarOutput else []);
  }

  method PerformCall(svc: XeService, client: XeUserClient, selector: uint32, args: Option<Args>, env: Env)
    returns (reply: Reply)
    requires svc.Valid() && client.providerSvc == svc
    modifies svc, svc.bar, svc.boList
    ensures svc.Valid() && svc.boList == old(svc.boList) && svc.Grew()
    ensures Called(svc.Abs(), reply) == ExternalMethod(svc.bar.device, old(svc.Abs()), selector, args, env)
  {
    if args.Some? {
      reply := CallWith(svc, client, selector, args.value, env);
    } else {
      var code := client.ExternalMethod(selector, null, env);
      reply := Reply(code, []);
    }
  }

  /** One operation on the objects is one step of the state machine. */
  method Perform(svc: XeService, client: XeUserClient, op: Op) returns (reply: Option<Reply>)
    requires svc.Valid() && ListOk(svc.Abs()) && client.providerSvc == svc && TextFits(op)
    modifies svc, svc.boot, svc.bar, svc.boList, svc.heap
    ensures svc.Valid() && svc.Abs() == Step(svc.bar.device, old(svc.Abs()), op)
    ensures reply == Replied(svc.bar.device, old(svc.Abs()), op)
    ensures svc.Grew() && (svc.boList != null && svc.boList != old(svc.boList) ==> fresh(svc.boList))
  {
    reply := None;
    match op
    case InitOp(superOk, arg) =>
      var _ := svc.Init(superOk, arg);
    case StartOp(superOk, isPci, map0, listOk) =>
      var _ := svc.Start(superOk, isPci, map0, listOk);
    case StopOp =>
      svc.Stop();
    case CallOp(selector, args, env) =>
      var r := PerformCall(svc, client, selector, args, env);
      reply := Some(r);
  }

  /** The replies so far are those of the state machine. */
  ghost predicate Replies(device: Device, ops: seq<Op>, replies: seq<Option<Reply>>) {
    && |replies| <= |ops|
    && forall i :: 0 <= i < |replies| ==> replies[i] == Replied(device, Run(device, INITIAL, ops[..i]), ops[i])
  }

  lemma NextStep(device: Device, ops: seq<Op>, n: nat)
    requires n < |ops|
    ensures ListOk(Run(device, INITIAL, ops[..n]))
    ensures Run(device, INITIAL, ops[..n + 1]) == Step(device, Run(device, INITIAL, ops[..n]), ops[n])
  {
    assert ops[..n + 1][..n] == ops[..n];
    RunKeepsBuffers(device, INITIAL, ops[..n]);
  }

  lemma NextReply(device: Device, ops: seq<Op>, replies: seq<Option<Reply>>, reply: Option<Reply>)
    requires Replies(device, ops, replies) && |replies| < |ops|
    requires reply == Replied(device, Run(device, INITIAL, ops[..|replies|]), ops[|replies|])
    ensures Replies(device, ops, replies + [reply])
  {
  }

  /** The service is in the state the machine reaches after the first n operations. */
  ghost predicate Reached(svc: XeService, ops: seq<Op>, n: nat)
    reads svc, svc.boot, svc.bar, svc.boList, svc.heap, set i | 0 <= i < |svc.heap| :: svc.heap[i].data
  {
    svc.Valid() && n <= |ops| && svc.Abs() == Run(svc.bar.device, INITIAL, ops[..n])
  }

  /** The next operation of a run. */
  method Advance(svc: XeService, client: XeUserClient, ops: seq<Op>, replies: seq<Option<Reply>>)
    returns (more: seq<Option<Reply>>)
    requires |replies| < |ops| && Replies(svc.bar.device, ops, replies)
    requires TextFits(ops[|replies|])
    requires client.providerSvc == svc && Reached(svc, ops, |replies|)
    modifies svc, svc.boot, svc.bar, svc.boList, svc.heap
    ensures |more| == |replies| + 1 && Replies(svc.bar.device, ops, more) && Reached(svc, ops, |more|)
    ensures svc.Grew() && (svc.boList != null && svc.boList != old(svc.boList) ==> fresh(svc.boList))
  {
    NextStep(svc.bar.device, ops, |replies|);
    var reply := Perform(svc, client, ops[|replies|]);
    NextReply(svc.bar.device, ops, replies, reply);
    more := replies + [reply];
  }

  /** The objects as the kernel first makes them. */
  method Attach(device: Device) returns (svc: XeService, client: XeUserClient)
    ensures AllNew(svc) && svc.bar.device == device && client.providerSvc == svc
    ensures svc.Valid() && svc.Abs() == INITIAL
  {
    var boot := new BootState();
    var bar := new Bar0(device);
    svc := new XeService(boot, bar);
    client := new XeUserClient(svc);
  }

  /** Every run, performed step by step on the objects, gives the replies and ends in the state
      that the state machine computes. */
  method Execute(device: Device, ops: seq<Op>) returns (svc: XeService, replies: seq<Option<Reply>>)
    requires forall i :: 0 <= i < |ops| ==> TextFits(ops[i])
    ensures fresh(svc) && svc.Valid() && svc.bar.device == device
    ensures svc.Abs() == Run(device, INITIAL, ops)
    ensures |replies| == |ops| && Replies(device, ops, replies)
  {
    var client;
    svc, client := Attach(device);
    replies := [];
    for n := 0 to |ops|
      invariant AllNew(svc) && svc.bar.device == device && client.providerSvc == svc
      invariant |replies| == n && Replies(device, ops, replies) && Reached(svc, ops, n)
    {
      replies := Advance(svc, client, ops, replies);
    }
    assert ops[..|ops|] == ops;
  }
}

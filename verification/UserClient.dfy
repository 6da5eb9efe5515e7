/** The user client: selector and count checks, and the handlers behind them. */
module UserClient {
  import opened Hardware
  import opened Driver
  import opened Service

  /** The argument block of one call: scalar slots and how many of them are meant. */
  class Arguments {
    const scalarInput: seq<uint64>
    const scalarInputCount: nat
    var scalarOutput: seq<uint64>
    var scalarOutputCount: nat

    ghost predicate Valid()
      reads this
    {
      scalarInputCount <= |scalarInput| && scalarOutputCount <= |scalarOutput|
    }

    ghost function Value(): Args
      requires Valid()
      reads this
    {
      Args(scalarInput[..scalarInputCount], scalarOutputCount)
    }

    /** The counts are those of the method's dispatch-table row. */
    predicate Matches(m: Selector)
      reads this
    {
      scalarInputCount == InputCount(m) && scalarOutputCount == OutputCount(m)
    }

    /** Exactly these outputs were delivered and the other slots left alone; nothing is touched if there are none. */
    twostate predicate Delivered(outputs: seq<uint64>)
      reads this
    {
      && |outputs| <= |old(scalarOutput)|
      && scalarOutput == outputs + old(scalarOutput)[|outputs|..]
      && scalarOutputCount == if outputs == [] then old(scalarOutputCount) else |outputs|
    }

    constructor (input: seq<uint64>, inputCount: nat, output: seq<uint64>, outputCount: nat)
      requires inputCount <= |input| && outputCount <= |output|
      ensures Valid() && scalarInput == input && scalarInputCount == inputCount
      ensures scalarOutput == output && scalarOutputCount == outputCount
    {
      scalarInput, scalarInputCount := input, inputCount;
      scalarOutput, scalarOutputCount := output, outputCount;
    }

    method PutCookie(cookie: uint64)
      requires Valid() && scalarOutputCount >= 1
      modifies this
      ensures Valid() && Delivered([cookie])
    {
      scalarOutput := scalarOutput[0 := cookie];
      scalarOutputCount := 1;
    }

    /** Copies the first n words, each widened to 64 bits. */
    method PutWords(tmp: array<Word>, n: nat)
      requires Valid() && n <= tmp.Length && n <= |scalarOutput| && (n == 0 ==> scalarOutputCount == 0)
      modifies this
      ensures Valid() && Delivered(Widen(tmp[..n]))
      ensures forall i :: 0 <= i < n ==> scalarOutput[i] == tmp[i] as int
    {
      ghost var before := scalarOutput;
      for i := 0 to n
        invariant |scalarOutput| == |before| && scalarOutputCount == old(scalarOutputCount)
        invariant forall k :: 0 <= k < i ==> scalarOutput[k] == Widen(tmp[..n])[k]
        invariant scalarOutput[i..] == before[i..]
      {
        scalarOutput := scalarOutput[i := tmp[i] as int];
      }
      scalarOutputCount := n;
    }

    /** Copies as many of the first n words as the caller has room for. */
    method PutAvailable(tmp: array<Word>, n: nat)
      requires Valid() && 0 < n <= tmp.Length
      modifies this
      ensures Valid()
      ensures Delivered(Widen(tmp[..if old(scalarOutputCount) < n then old(scalarOutputCount) else n]))
    {
      var outMax := if scalarOutputCount < n then scalarOutputCount else n;
      PutWords(tmp, outMax);
    }

    /** Delivers what a successful query found; a failed one delivers nothing. */
    method PutOnSuccess(code: IOReturn, tmp: array<Word>, n: nat)
      requires Valid() && (code == Success ==> 0 < n <= tmp.Length && scalarOutputCount == n)
      modifies this
      ensures Valid() && Delivered(if code == Success then Widen(tmp[..n]) else [])
    {
      if code == Success {
        PutAvailable(tmp, n);
      }
    }
  }

  class XeUserClient {
    const providerSvc: XeService?

    constructor (provider: XeService?)
      ensures providerSvc == provider
    {
      providerSvc := provider;
    }

    ghost predicate Valid()
      reads providerSvc, if providerSvc == null then null else providerSvc.boList
    {
      providerSvc != null ==> providerSvc.Valid()
    }

    /** What a call may change besides its arguments. */
    ghost function Touched(): set<object>
      reads providerSvc
    {
      if providerSvc == null then {}
      else {providerSvc, providerSvc.bar} + if providerSvc.boList == null then {} else {providerSvc.boList}
    }

    /** The service keeps its list object and only gains new buffers. */
    twostate predicate Kept()
      reads providerSvc
    {
      providerSvc != null ==> providerSvc.boList == old(providerSvc.boList) && providerSvc.Grew()
    }

    /** Narrows the 64-bit request, clamps it, and hands back the cookie. */
    method SCreateBuffer(a: Arguments, env: Env) returns (code: IOReturn)
      requires Valid() && a.Valid() && a.Matches(CreateSelector)
      modifies Touched(), a
      ensures Valid() && a.Valid() && Kept()
      ensures providerSvc == null ==> code == NotReady && a.Delivered([])
      ensures providerSvc != null ==>
        var r := CreateBuffer(old(providerSvc.Abs()), ClampSize(a.scalarInput[0]), env);
        providerSvc.Abs() == r.state && code == r.code && a.Delivered(if code == Success then [r.cookie] else [])
    {
      if providerSvc == null { return NotReady; }
      var bytes := 4096;
      if a.scalarInputCount >= 1 {
        bytes := a.scalarInput[0] % 0x1_0000_0000;
        if bytes == 0 { bytes := 4096; }
        if bytes > MAX_BUFFER { bytes := MAX_BUFFER; }
      }
      var cookie;
      code, cookie := providerSvc.UcCreateBuffer(bytes, env);
      if code == Success && a.scalarOutputCount >= 1 {
        a.PutCookie(cookie);
      }
    }

    method SSubmit(a: Arguments, env: Env) returns (code: IOReturn)
      requires Valid() && a.Valid() && a.Matches(SubmitSelector)
      modifies Touched(), a
      ensures Valid() && a.Valid() && Kept()
      ensures providerSvc == null ==> code == NotReady && a.Delivered([])
      ensures providerSvc != null ==>
        Submitted(providerSvc.Abs(), code) == Submit(providerSvc.bar.device, old(providerSvc.Abs()), env)
        && a.Delivered([])
    {
      if providerSvc == null { return NotReady; }
      code := providerSvc.UcSubmitNoop(env);
    }

    /** The wait is a stub that always succeeds; the clamped timeout is not used. */
    method SWait(a: Arguments) returns (code: IOReturn)
      requires Valid() && a.Valid() && a.Matches(WaitSelector)
      modifies Touched(), a
      ensures Valid() && a.Valid() && Kept()
      ensures providerSvc == null ==> code == NotReady && a.Delivered([])
      ensures providerSvc != null ==>
        providerSvc.Abs() == old(providerSvc.Abs()) && code == Success && a.Delivered([])
    {
      if providerSvc == null { return NotReady; }
      return Success;
    }

    /** Delivers the first eight allow-listed registers, without looking at the output count. */
    method SReadRegs(a: Arguments) returns (code: IOReturn)
      requires Valid() && a.Valid() && a.Matches(RegsSelector)
      modifies Touched(), a
      ensures Valid() && a.Valid() && Kept()
      ensures providerSvc == null ==> code == NotReady && a.Delivered([])
      ensures providerSvc != null ==>
        var r := Answered(Query(providerSvc.bar.device, old(providerSvc.Abs()), SAFE_REGISTERS, SafeCount(8)));
        providerSvc.Abs() == r.state && code == r.reply.code && a.Delivered(r.reply.outputs)
    {
      if providerSvc == null { return NotReady; }
      var tmp := new Word[8](_ => 0);
      var n;
      code, n := providerSvc.UcReadRegs(8, tmp, true);
      if code == Success {
        var outMax := if n < 8 then n else 8;
        a.PutWords(tmp, outMax);
      }
    }

    method SGetGTConfig(a: Arguments) returns (code: IOReturn)
      requires Valid() && a.Valid() && a.Matches(GtSelector)
      modifies Touched(), a
      ensures Valid() && a.Valid() && Kept()
      ensures providerSvc == null ==> code == NotReady && a.Delivered([])
      ensures providerSvc != null ==>
        var r := Answered(Query(providerSvc.bar.device, old(providerSvc.Abs()), GT_CONFIG, 8));
        providerSvc.Abs() == r.state && code == r.reply.code && a.Delivered(r.reply.outputs)
    {
      if providerSvc == null { return NotReady; }
      var tmp := new Word[8](_ => 0);
      var n;
      code, n := providerSvc.UcGetGTConfig(tmp, true);
      assert tmp[..8] == tmp[..];
      a.PutOnSuccess(code, tmp, n);
    }

    method SGetDisplayInfo(a: Arguments) returns (code: IOReturn)
      requires Valid() && a.Valid() && a.Matches(DisplaySelector)
      modifies Touched(), a
      ensures Valid() && a.Valid() && Kept()
      ensures providerSvc == null ==> code == NotReady && a.Delivered([])
      ensures providerSvc != null ==>
        var r := Answered(Query(providerSvc.bar.device, old(providerSvc.Abs()), DISPLAY_INFO, 8));
        providerSvc.Abs() == r.state && code == r.reply.code && a.Delivered(r.reply.outputs)
    {
      if providerSvc == null { return NotReady; }
      var tmp := new Word[8](_ => 0);
      var n;
      code, n := providerSvc.UcGetDisplayInfo(tmp, true);
      assert tmp[..8] == tmp[..];
      a.PutOnSuccess(code, tmp, n);
    }

    /** The framework calls the handler of a row only when the counts match it exactly. */
    method Handle(m: Selector, a: Arguments, env: Env) returns (code: IOReturn)
      requires Valid() && a.Valid() && a.Matches(m)
      modifies Touched(), a
      ensures Valid() && a.Valid() && Kept()
      ensures providerSvc == null ==> code == NotReady && a.Delivered([])
      ensures providerSvc != null ==>
        var r := Dispatch(providerSvc.bar.device, old(providerSvc.Abs()), m, old(a.Value()), env);
        providerSvc.Abs() == r.state && code == r.reply.code && a.Delivered(r.reply.outputs)
    {
      match m
      case CreateSelector => code := SCreateBuffer(a, env);
      case SubmitSelector => code := SSubmit(a, env);
      case WaitSelector => code := SWait(a);
      case RegsSelector => code := SReadRegs(a);
      case GtSelector => code := SGetGTConfig(a);
      case DisplaySelector => code := SGetDisplayInfo(a);
    }

    /** Unknown selectors, missing arguments and wrong counts change nothing; all else goes to the handler. */
    method ExternalMethod(selector: uint32, args: Arguments?, env: Env) returns (code: IOReturn)
      requires Valid() && (args != null ==> args.Valid())
      modifies Touched(), if args == null then {} else {args}
      ensures Valid() && (args != null ==> args.Valid()) && Kept()
      ensures providerSvc != null ==>
        var r := Driver.ExternalMethod(providerSvc.bar.device, old(providerSvc.Abs()), selector,
                                       if args == null then None else Some(old(args.Value())), env);
        providerSvc.Abs() == r.state && code == r.reply.code && (args != null ==> args.Delivered(r.reply.outputs))
      ensures providerSvc == null ==>
        && code == (if selector >= |METHODS| then Unsupported
                    else if args == null || !old(args.Matches(METHODS[selector])) then BadArgument else NotReady)
        && (args != null ==> args.Delivered([]))
    {
      if selector >= |METHODS| { return Unsupported; }
      if args == null { return BadArgument; }
      var m := METHODS[selector];
      if !args.Matches(m) { return BadArgument; }
      code := Handle(m, args, env);
    }
  }
}

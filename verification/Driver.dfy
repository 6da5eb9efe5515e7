/** The driver as a state machine: bring-up, shutdown, buffer registry and user-client calls on values. */
module Driver {
  import opened Hardware
  import opened Mmio
  import opened BootArgs
  import opened CommandStream

  /** Everything the driver keeps, and everything the device has seen.
      `bar0` is the length of the live mapping, `liveMaps` counts mappings obtained and not released,
      `heap` holds every buffer ever allocated and `boList` the registered ones, by position in `heap`. */
  datatype State = State(
    flags: Flags,
    trace: Trace,
    bar0: Option<nat>,
    mmio: bool,
    bar0Length: nat,
    liveMaps: int,
    boList: Option<seq<nat>>,
    heap: seq<Buffer>)

  const INITIAL := State(NO_FLAGS, [], None, false, 0, 0, None, [])

  // ---------------------------------------------------------------- bring-up and shutdown

  /** What the kernel answers when BAR0 is mapped: its length and whether it has an address. */
  datatype Mapping = Mapping(length: nat, addressed: bool)

  function Initialized(s: State, superOk: bool, arg: Option<string>): State {
    if superOk && arg.Some? then s.(flags := Union(s.flags, TextFlags(arg.value))) else s
  }

  /** The GGTT probe stops after the page-table register when that reads as a sentinel. */
  function Probe(d: Device, t: Trace): Trace {
    var first := RawReads(d, t, [PGTBL_CTL]);
    if Sentinel(first.values[0]) then first.events
    else first.events + RawReads(d, t + first.events, GGTT_REST).events
  }

  function Survey(d: Device, t: Trace, len: nat): Trace {
    var power := BarReads(d, t, len, POWER_STATE).events;
    var probe := Probe(d, t + power);
    power + probe + BarReads(d, t + power + probe, len, DISPLAY_STATE).events
  }

  function BringUp(d: Device, t: Trace, flags: Flags, len: nat): Trace {
    var first := RawReads(d, t, FIRST_READS).events;
    if flags.strictSafe then first else first + Survey(d, t + first, len)
  }

  datatype Started = Started(state: State, ok: bool)

  function Start(d: Device, s: State, superOk: bool, isPci: bool, map0: Option<Mapping>, listOk: bool): Started {
    if !superOk || !isPci then Started(s, false)
    else if map0.None? then Started(s.(bar0 := None), false)
    else if map0.value.length == 0 then Started(s.(bar0 := None, bar0Length := 0), false)
    else if !map0.value.addressed then
      Started(s.(bar0 := None, bar0Length := map0.value.length, mmio := false), false)
    else
      var len := map0.value.length;
      Started(
        s.(bar0 := Some(len), bar0Length := len, mmio := true, liveMaps := s.liveMaps + 1,
           trace := s.trace + BringUp(d, s.trace, s.flags, len),
           boList := if listOk then Some([]) else None),
        listOk)
  }

  function AddRefs(heap: seq<Buffer>, id: nat, delta: int): (r: seq<Buffer>)
    ensures |r| == |heap|
  {
    if id < |heap| then heap[id := heap[id].(refs := heap[id].refs + delta)] else heap
  }

  /** One release of each listed buffer, in order. */
  function ReleaseAll(heap: seq<Buffer>, ids: seq<nat>): (r: seq<Buffer>)
    ensures |r| == |heap|
  {
    if ids == [] then heap
    else AddRefs(ReleaseAll(heap, ids[..|ids| - 1]), ids[|ids| - 1], -1)
  }

  /** Each registered buffer is released by the service and again when the list itself is freed. */
  function Stopped(s: State): State {
    var s1 := if s.boList.None? then s
              else s.(heap := ReleaseAll(ReleaseAll(s.heap, s.boList.value), s.boList.value), boList := None);
    if s1.bar0.None? then s1 else s1.(bar0 := None, mmio := false, liveMaps := s1.liveMaps - 1)
  }

  // ---------------------------------------------------------------- buffers

  /** What the kernel answers during one call: memory, list growth, kernel address, old memory contents. */
  datatype Env = Env(memory: bool, inserted: bool, addressed: bool, fill: nat -> Word)

  const PAGE: nat := 4096
  const MAX_COUNT: nat := 0xFFFF_FFFF

  /** (bytes + 0xFFF) & ~0xFFF in 32-bit arithmetic. */
  function PageAlign(bytes: uint32): uint32 {
    var sum := (bytes + 0xFFF) % 0x1_0000_0000;
    sum - sum % PAGE
  }

  function Filled(n: nat, fill: nat -> Word): (r: seq<Word>)
    ensures |r| == n && forall i :: 0 <= i < n ==> r[i] == fill(i)
  {
    seq(n, i requires 0 <= i < n => fill(i))
  }

  function Fresh(bytes: nat, env: Env): Buffer {
    Buffer(1, env.addressed, bytes, Filled(bytes / 4, env.fill))
  }

  datatype Created = Created(state: State, code: IOReturn, cookie: uint64)

  /** A buffer of this size is allocated and listed, or dropped again when the list cannot grow. */
  function CreateSized(s: State, ids: seq<nat>, size: nat, env: Env): Created {
    var id := |s.heap|;
    var heap := s.heap + [Fresh(size, env)];
    if !env.inserted || |ids| >= MAX_COUNT then
      Created(s.(heap := AddRefs(heap, id, -1)), NoResources, 0)
    else
      Created(s.(heap := AddRefs(heap, id, 1), boList := Some(ids + [id])), Success, |ids| + 1)
  }

  function CreateBuffer(s: State, bytes: uint32, env: Env): Created {
    if s.boList.None? then Created(s, NotReady, 0)
    else if !env.memory then Created(s, NoResources, 0)
    else CreateSized(s, s.boList.value, PageAlign(bytes), env)
  }

  /** The buffer a cookie names: cookies are one-based positions, narrowed to 32 bits when indexing. */
  function BoFromCookie(ids: Option<seq<nat>>, cookie: uint64): Option<nat> {
    if cookie == 0 || ids.None? then None
    else
      var idx := cookie - 1;
      if idx >= |ids.value| then None
      else if idx % 0x1_0000_0000 < |ids.value| then Some(ids.value[idx % 0x1_0000_0000]) else None
  }

  // ---------------------------------------------------------------- register queries and submission

  datatype Queried = Queried(state: State, code: IOReturn, values: seq<Word>)

  /** Checked reads of the first k registers of a list. */
  function Query(d: Device, s: State, offs: seq<Register>, k: nat): Queried
    requires k <= |offs|
  {
    if !s.mmio then Queried(s, NotReady, [])
    else
      var r := BarReadsTo(d, s.trace, s.bar0Length, offs, k);
      Queried(s.(trace := s.trace + r.events), Success, r.values)
  }

  /** How many allow-listed registers a request for `count` of them returns. */
  function SafeCount(count: uint32): nat {
    if count < |SAFE_REGISTERS| then count else |SAFE_REGISTERS|
  }

  datatype Submitted = Submitted(state: State, code: IOReturn)

  /** A one-page batch is allocated, submitted and released again. */
  function Submit(d: Device, s: State, env: Env): Submitted {
    if !s.mmio then Submitted(s, NotReady)
    else if !env.memory then Submitted(s, NoResources)
    else
      var bo := Fresh(PAGE, env);
      var code := SubmitCode(true, s.flags, Some(bo));
      var es := if code == Success then RingLog(d, s.trace, true, s.flags) else [];
      Submitted(
        s.(trace := s.trace + es,
           heap := s.heap + [bo.(refs := 0, data := SubmitData(code, bo.data))]),
        code)
  }

  // ---------------------------------------------------------------- user-client calls

  /** Scalar arguments of a call: the inputs and how many outputs the caller has room for. */
  datatype Args = Args(input: seq<uint64>, outputs: nat)

  /** A result code and the scalars written back. */
  datatype Reply = Reply(code: IOReturn, outputs: seq<uint64>)

  datatype Called = Called(state: State, reply: Reply)

  datatype Selector = CreateSelector | SubmitSelector | WaitSelector | RegsSelector | GtSelector | DisplaySelector

  const METHODS: seq<Selector> :=
    [CreateSelector, SubmitSelector, WaitSelector, RegsSelector, GtSelector, DisplaySelector]

  /** The dispatch table's exact scalar input and output counts. */
  function InputCount(m: Selector): nat {
    if m == CreateSelector || m == WaitSelector then 1 else 0
  }

  function OutputCount(m: Selector): nat {
    match m
    case CreateSelector => 1
    case SubmitSelector => 0
    case WaitSelector => 0
    case RegsSelector => 8
    case GtSelector => 8
    case DisplaySelector => 8
  }

  const MAX_BUFFER: uint32 := 64 * 1024 * 1024

  /** The 64-bit request is narrowed to 32 bits first and clamped afterwards. */
  function ClampSize(request: uint64): uint32 {
    var bytes := request % 0x1_0000_0000;
    var bytes := if bytes == 0 then PAGE else bytes;
    if bytes > MAX_BUFFER then MAX_BUFFER else bytes
  }

  /** Zero extension of each word. */
  function Widen(ws: seq<Word>): (r: seq<uint64>)
    ensures |r| == |ws| && forall i :: 0 <= i < |r| ==> r[i] == ws[i] as int
  {
    seq(|ws|, i requires 0 <= i < |ws| => ws[i] as int)
  }

  function Answered(q: Queried): Called {
    Called(q.state, Reply(q.code, Widen(q.values)))
  }

  function Dispatch(d: Device, s: State, m: Selector, args: Args, env: Env): Called
    requires |args.input| == InputCount(m) && args.outputs == OutputCount(m)
  {
    match m
    case CreateSelector =>
      var r := CreateBuffer(s, ClampSize(args.input[0]), env);
      Called(r.state, Reply(r.code, if r.code == Success then [r.cookie] else []))
    case SubmitSelector =>
      var r := Submit(d, s, env);
      Called(r.state, Reply(r.code, []))
    case WaitSelector => Called(s, Reply(Success, []))
    case RegsSelector => Answered(Query(d, s, SAFE_REGISTERS, SafeCount(8)))
    case GtSelector => Answered(Query(d, s, GT_CONFIG, 8))
    case DisplaySelector => Answered(Query(d, s, DISPLAY_INFO, 8))
  }

  function ExternalMethod(d: Device, s: State, selector: uint32, args: Option<Args>, env: Env): Called {
    if selector >= |METHODS| then Called(s, Reply(Unsupported, []))
    else if args.None? then Called(s, Reply(BadArgument, []))
    else
      var m := METHODS[selector];
      if |args.value.input| != InputCount(m) || args.value.outputs != OutputCount(m)
      then Called(s, Reply(BadArgument, []))
      else Dispatch(d, s, m, args.value, env)
  }

  // ---------------------------------------------------------------- runs

  datatype Op =
    | InitOp(superOk: bool, arg: Option<string>)
    | StartOp(superOk: bool, isPci: bool, map0: Option<Mapping>, listOk: bool)
    | StopOp
    | CallOp(selector: uint32, args: Option<Args>, env: Env)

  function Step(d: Device, s: State, op: Op): State {
    match op
    case InitOp(superOk, arg) => Initialized(s, superOk, arg)
    case StartOp(superOk, isPci, map0, listOk) => Start(d, s, superOk, isPci, map0, listOk).state
    case StopOp => Stopped(s)
    case CallOp(selector, args, env) => ExternalMethod(d, s, selector, args, env).state
  }

  function Run(d: Device, s: State, ops: seq<Op>): State {
    if ops == [] then s else Step(d, Run(d, s, ops[..|ops| - 1]), ops[|ops| - 1])
  }

  /** What the caller of an operation gets back, if it is a user-client call. */
  function Replied(d: Device, s: State, op: Op): Option<Reply> {
    if op.CallOp? then Some(ExternalMethod(d, s, op.selector, op.args, op.env).reply) else None
  }

  lemma RunOne(d: Device, s: State, op: Op)
    ensures Run(d, s, [op]) == Step(d, s, op)
  {
    assert [op][..0] == [];
  }

  lemma RunTwo(d: Device, s: State, first: Op, second: Op)
    ensures Run(d, s, [first, second]) == Step(d, Step(d, s, first), second)
  {
    assert [first, second][..1] == [first];
    RunOne(d, s, first);
  }

  lemma {:induction false} RunAppend(d: Device, s: State, a: seq<Op>, b: seq<Op>)
    ensures Run(d, s, a + b) == Run(d, Run(d, s, a), b)
  {
    if b == [] {
      assert a + b == a;
    } else {
      assert (a + b)[..|a + b| - 1] == a + b[..|b| - 1];
      RunAppend(d, s, a, b[..|b| - 1]);
    }
  }
}

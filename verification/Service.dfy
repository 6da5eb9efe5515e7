/** The service object: bring-up, shutdown, and the operations the user client calls. */
module Service {
  import opened Hardware
  import opened Mmio
  import opened BootArgs
  import opened CommandStream
  import opened Driver
  import opened Registry
  import opened Guard
  import opened Buffers
  import opened Stream
  import opened Ggtt

  class XeService {
    const boot: BootState
    const bar: Bar0

    var bar0: Option<nat>
    var mmio: Bar0?
    var bar0Length: nat
    var boList: BoList?

    /** Every buffer ever allocated, and the positions of the listed ones. */
    ghost var heap: seq<MemoryDescriptor>
    ghost var ids: seq<nat>

    ghost predicate Valid()
      reads this, boList
    {
      && (mmio == null || mmio == bar)
      && Separate(heap)
      && (boList != null ==> Lists(boList.items, ids, heap))
    }

    /** The service as a value of the state machine. */
    ghost function Abs(): State
      reads this, boot, bar, boList, heap, set i | 0 <= i < |heap| :: heap[i].data
    {
      State(boot.Value(), bar.trace, bar0, mmio != null, bar0Length, bar.liveMaps,
            if boList == null then None else Some(ids), Snapshot(heap))
    }

    /** Buffers are only ever added, and what is added is new. */
    twostate predicate Grew()
      reads this
    {
      && |old(heap)| <= |heap| && heap[..|old(heap)|] == old(heap)
      && forall i :: |old(heap)| <= i < |heap| ==> fresh(heap[i])
    }

    constructor (boot: BootState, bar: Bar0)
      ensures this.boot == boot && this.bar == bar && Valid()
      ensures Abs() == INITIAL.(flags := boot.Value(), trace := bar.trace, liveMaps := bar.liveMaps)
    {
      this.boot, this.bar := boot, bar;
      bar0, mmio, bar0Length, boList := None, null, 0, null;
      heap, ids := [], [];
    }

    // ------------------------------------------------------------ checked access

    /** The checked read: null pointer, safe range and BAR length are tested before the load. */
    method ReadRegSafe(off: uint32) returns (w: Word)
      requires Valid()
      modifies bar`trace
      ensures var r := BarRead(bar.device, old(bar.trace), mmio != null, bar0Length, off);
        w == r.value && bar.trace == old(bar.trace) + r.events
    {
      assert bar.trace + [] == bar.trace;
      if mmio == null { return SENTINEL_NULL_MMIO; }
      if off > MAX_SAFE_OFFSET { return SENTINEL_OUT_OF_RANGE; }
      if bar0Length > 0 && off >= bar0Length { return SENTINEL_OUT_OF_RANGE; }
      w := mmio.Load(off);
    }

    /** The checked write: refused, or one dword wholly inside an aligned BAR. */
    method WriteReg(off: uint32, w: Word)
      requires Valid()
      modifies bar`trace
      ensures var ok := mmio != null && off <= MAX_SAFE_OFFSET && (bar0Length > 0 ==> off < bar0Length);
        && bar.trace == old(bar.trace) + (if ok then [Write(Dword(off), w)] else [])
        && (ok && bar0Length > 0 && bar0Length % 4 == 0 ==> InBar([Write(Dword(off), w)], bar0Length))
    {
      assert bar.trace + [] == bar.trace;
      if mmio == null { return; }
      if off > MAX_SAFE_OFFSET { return; }
      if bar0Length > 0 && off >= bar0Length { return; }
      mmio.Store(off, w);
    }

    /** One more checked read of a fixed list. */
    method ReadNext(offs: seq<Register>, k: nat, ghost t: Trace) returns (w: Word)
      requires Valid() && mmio != null && k < |offs|
      requires bar.trace == t + BarReadsTo(bar.device, t, bar0Length, offs, k).events
      modifies bar`trace
      ensures bar.trace == t + BarReadsTo(bar.device, t, bar0Length, offs, k + 1).events
      ensures BarReadsTo(bar.device, t, bar0Length, offs, k + 1).values
           == BarReadsTo(bar.device, t, bar0Length, offs, k).values + [w]
    {
      w := ReadRegSafe(offs[k]);
    }

    /** A checked read whose value only goes to the log. */
    method LogNext(offs: seq<Register>, k: nat, ghost t: Trace)
      requires Valid() && mmio != null && k < |offs|
      requires bar.trace == t + BarReadsTo(bar.device, t, bar0Length, offs, k).events
      modifies bar`trace
      ensures bar.trace == t + BarReadsTo(bar.device, t, bar0Length, offs, k + 1).events
    {
      var _ := ReadNext(offs, k, t);
    }

    // ------------------------------------------------------------ lifecycle

    /** The argument is what the kernel finds for xepci=: a text that fits the 128-byte buffer, or nothing. */
    method Init(superOk: bool, arg: Option<string>) returns (ok: bool)
      requires Valid() && (arg.Some? ==> |arg.value| < 128 && '\0' !in arg.value)
      modifies boot
      ensures ok == superOk && Valid()
      ensures Abs() == Initialized(old(Abs()), superOk, arg)
    {
      if !superOk { return false; }
      var text := if arg.Some? then arg.value else "";
      var buf := new char[128](i => if 0 <= i < |text| then text[i] else '\0');
      assert buf[0..|text|] == text;
      boot.Parse(arg.Some?, buf, |text|);
      return true;
    }

    method LogPowerState()
      requires Valid() && mmio != null
      modifies bar`trace
      ensures bar.trace == old(bar.trace) + BarReads(bar.device, old(bar.trace), bar0Length, POWER_STATE).events
    {
      ghost var t := bar.trace;
      assert t + [] == t;
      LogNext(POWER_STATE, 0, t);
      LogNext(POWER_STATE, 1, t);
      LogNext(POWER_STATE, 2, t);
      LogNext(POWER_STATE, 3, t);
      LogNext(POWER_STATE, 4, t);
      LogNext(POWER_STATE, 5, t);
      LogNext(POWER_STATE, 6, t);
      LogNext(POWER_STATE, 7, t);
      LogNext(POWER_STATE, 8, t);
      LogNext(POWER_STATE, 9, t);
    }

    method LogDisplayState()
      requires Valid() && mmio != null
      modifies bar`trace
      ensures bar.trace == old(bar.trace) + BarReads(bar.device, old(bar.trace), bar0Length, DISPLAY_STATE).events
    {
      ghost var t := bar.trace;
      assert t + [] == t;
      LogNext(DISPLAY_STATE, 0, t);
      LogNext(DISPLAY_STATE, 1, t);
      LogNext(DISPLAY_STATE, 2, t);
      LogNext(DISPLAY_STATE, 3, t);
      LogNext(DISPLAY_STATE, 4, t);
      LogNext(DISPLAY_STATE, 5, t);
      LogNext(DISPLAY_STATE, 6, t);
      LogNext(DISPLAY_STATE, 7, t);
      LogNext(DISPLAY_STATE, 8, t);
      LogNext(DISPLAY_STATE, 9, t);
      LogNext(DISPLAY_STATE, 10, t);
      LogNext(DISPLAY_STATE, 11, t);
      LogNext(DISPLAY_STATE, 12, t);
    }

    /** The first four reads go through the pointer without any check. */
    method ReadFirst()
      requires Valid() && mmio != null
      modifies bar`trace
      ensures bar.trace == old(bar.trace) + RawReads(bar.device, old(bar.trace), FIRST_READS).events
    {
      ghost var t := bar.trace;
      assert t + [] == t;
      var reg0 := mmio.Load(0x0);
      assert bar.trace == t + RawReadsTo(bar.device, t, FIRST_READS, 1).events;
      var reg4 := mmio.Load(0x4);
      assert bar.trace == t + RawReadsTo(bar.device, t, FIRST_READS, 2).events;
      var reg10 := mmio.Load(0x10);
      assert bar.trace == t + RawReadsTo(bar.device, t, FIRST_READS, 3).events;
      var reg100 := mmio.Load(0x100);
    }

    method SurveyDevice()
      requires Valid() && mmio != null
      modifies bar`trace
      ensures bar.trace == old(bar.trace) + Survey(bar.device, old(bar.trace), bar0Length)
    {
      ghost var t := bar.trace;
      LogPowerState();
      ghost var t1 := bar.trace;
      var _ := ProbeGgtt(mmio);
      ghost var t2 := bar.trace;
      LogDisplayState();
      ghost var power, probe := BarReads(bar.device, t, bar0Length, POWER_STATE).events, Probe(bar.device, t1);
      ghost var display := BarReads(bar.device, t2, bar0Length, DISPLAY_STATE).events;
      assert t + power + probe + display == t + (power + probe + display);
    }

    /** All reads of bring-up; strict-safe stops after the first four. */
    method ReadDevice()
      requires Valid() && mmio != null
      modifies bar`trace
      ensures bar.trace == old(bar.trace) + BringUp(bar.device, old(bar.trace), boot.Value(), bar0Length)
      ensures Snapshot(heap) == old(Snapshot(heap))
    {
      ghost var t := bar.trace;
      ReadFirst();
      if !boot.strictSafe {
        ghost var t1 := bar.trace;
        SurveyDevice();
        ghost var first := RawReads(bar.device, t, FIRST_READS).events;
        assert t + first + Survey(bar.device, t1, bar0Length) == t + (first + Survey(bar.device, t1, bar0Length));
      }
    }

    /** Maps BAR0; every failure lets go of the mapping again. */
    method MapBar(map0: Option<Mapping>) returns (ok: bool)
      modifies this`bar0, this`bar0Length, this`mmio, bar`liveMaps
      ensures ok == Usable(map0)
      ensures bar0 == if ok then Some(map0.value.length) else None
      ensures bar0Length == if map0.Some? then map0.value.length else old(bar0Length)
      ensures mmio == if map0.None? || map0.value.length == 0 then old(mmio)
                      else if map0.value.addressed then bar else null
      ensures bar.liveMaps == old(bar.liveMaps) + if ok then 1 else 0
      ensures Snapshot(heap) == old(Snapshot(heap))
    {
      if map0.None? {
        bar0 := None;
        return false;
      }
      bar.liveMaps := bar.liveMaps + 1;
      bar0 := Some(map0.value.length);
      bar0Length := map0.value.length;
      if bar0Length == 0 {
        bar.liveMaps := bar.liveMaps - 1;
        bar0 := None;
        return false;
      }
      mmio := if map0.value.addressed then bar else null;
      if mmio == null {
        bar.liveMaps := bar.liveMaps - 1;
        bar0 := None;
        return false;
      }
      return true;
    }

    /** Mapping, first reads and registry, once the provider is known to be a PCI device. */
    method BringUpDevice(map0: Option<Mapping>, listOk: bool) returns (ok: bool)
      requires Valid()
      modifies this, bar
      ensures Valid() && heap == old(heap) && Snapshot(heap) == old(Snapshot(heap))
      ensures ok == (Usable(map0) && listOk)
      ensures bar0 == if Usable(map0) then Some(map0.value.length) else None
      ensures bar0Length == if map0.Some? then map0.value.length else old(bar0Length)
      ensures mmio == if map0.None? || map0.value.length == 0 then old(mmio)
                      else if map0.value.addressed then bar else null
      ensures bar.liveMaps == old(bar.liveMaps) + if Usable(map0) then 1 else 0
      ensures bar.trace == old(bar.trace)
                         + if Usable(map0) then BringUp(bar.device, old(bar.trace), boot.Value(), bar0Length) else []
      ensures Usable(map0) ==> (boList == null <==> !listOk) && (listOk ==> fresh(boList) && ids == [])
      ensures !Usable(map0) ==> boList == old(boList) && ids == old(ids)
    {
      assert bar.trace + [] == bar.trace;
      ok := MapBar(map0);
      if !ok { return; }
      ReadDevice();
      ok := NewList(listOk);
    }

    method Start(superOk: bool, isPci: bool, map0: Option<Mapping>, listOk: bool) returns (ok: bool)
      requires Valid()
      modifies this, bar
      ensures Valid() && heap == old(heap) && (boList != null && boList != old(boList) ==> fresh(boList))
      ensures Started(Abs(), ok) == Driver.Start(bar.device, old(Abs()), superOk, isPci, map0, listOk)
    {
      if !superOk { return false; }
      if !isPci { return false; }
      ok := BringUpDevice(map0, listOk);
    }

    /** Allocates the empty registry, which may fail. */
    method NewList(listOk: bool) returns (ok: bool)
      modifies this`boList, this`ids
      ensures ok == listOk && (boList != null <==> listOk) && (listOk ==> ids == [])
      ensures boList != null ==> fresh(boList) && boList.items == []
      ensures Snapshot(heap) == old(Snapshot(heap))
    {
      boList := null;
      if listOk {
        boList := new BoList();
        ids := [];
      }
      return listOk;
    }

    /** Each listed buffer loses the service's reference, then the list's. */
    method ReleaseBuffers()
      requires Separate(heap) && boList != null && Lists(boList.items, ids, heap) && Increasing(ids, |heap|)
      requires forall k :: 0 <= k < |ids| ==> boList.items[k].refs == 2
      modifies this`boList, boList.items
      ensures boList == null
      ensures Snapshot(heap) == ReleaseAll(ReleaseAll(old(Snapshot(heap)), ids), ids)
    {
      var items := boList.items;
      ReleaseItems(items, ids, heap);
      ReleaseItems(items, ids, heap);
      ghost var after := Snapshot(heap);
      boList := null;
      assert Snapshot(heap) == after;
    }

    /** What the invariant says about the listed buffers. */
    lemma ListedBuffers()
      requires Valid() && ListOk(Abs()) && boList != null
      ensures Increasing(ids, |heap|)
      ensures forall k :: 0 <= k < |ids| ==> boList.items[k].refs == 2
    {
      assert forall k :: 0 <= k < |ids| ==> Registered(Abs(), ids[k]) && Abs().heap[ids[k]].refs == 2;
    }

    method UnmapBar()
      modifies this`bar0, this`mmio, bar`liveMaps
      ensures bar0 == None
      ensures mmio == if old(bar0).Some? then null else old(mmio)
      ensures bar.liveMaps == old(bar.liveMaps) - if old(bar0).Some? then 1 else 0
      ensures Snapshot(heap) == old(Snapshot(heap))
    {
      if bar0.Some? {
        bar.liveMaps := bar.liveMaps - 1;
        bar0 := None;
        mmio := null;
      }
    }

    method Stop()
      requires Valid() && ListOk(Abs())
      modifies this, bar`liveMaps, heap
      ensures Valid() && heap == old(heap) && boList == null
      ensures Abs() == Stopped(old(Abs()))
    {
      if boList != null {
        ListedBuffers();
        ReleaseBuffers();
      }
      UnmapBar();
    }

    // ------------------------------------------------------------ buffers

    /** The registered buffer a cookie names. */
    method FromCookie(cookie: uint64) returns (md: MemoryDescriptor?)
      requires Valid() && (boList != null ==> |boList.items| <= MAX_COUNT)
      ensures var found := BoFromCookie(Abs().boList, cookie);
        if found.None? then md == null else found.value < |heap| && md == heap[found.value]
    {
      if cookie == 0 || boList == null { return null; }
      var idx := cookie - 1;
      if idx >= |boList.items| { return null; }
      return boList.items[idx % 0x1_0000_0000];
    }

    /** A new buffer joins the heap with one reference. */
    method Allocate(bytes: nat, env: Env) returns (md: MemoryDescriptor)
      requires Valid()
      modifies this`heap
      ensures Valid() && fresh(md) && fresh(md.data) && heap == old(heap) + [md]
      ensures md.Value() == Fresh(bytes, env)
    {
      md := new MemoryDescriptor(bytes, env, |heap|);
      heap := heap + [md];
    }

    /** The list takes the newest buffer and a reference on it, or neither. */
    method Register(md: MemoryDescriptor, grown: bool) returns (ok: bool)
      requires Valid() && boList != null && heap != [] && md == heap[|heap| - 1] && md.refs > 0
      modifies this`ids, boList, md`refs
      ensures Valid() && ok == (grown && |old(ids)| < MAX_COUNT)
      ensures ids == if ok then old(ids) + [|heap| - 1] else old(ids)
      ensures md.refs == old(md.refs) + if ok then 1 else 0
    {
      ok := boList.SetObject(md, grown);
      if ok {
        ids := ids + [|heap| - 1];
      }
    }

    /** Allocation and registration, once the list and the memory are there; if the list cannot grow
        the new buffer loses its only reference. */
    method CreateListed(size: nat, env: Env) returns (code: IOReturn, cookie: uint64)
      requires Valid() && boList != null
      modifies this`heap, this`ids, boList
      ensures Valid() && boList == old(boList) && Grew() && |heap| == |old(heap)| + 1
      ensures code == if env.inserted && |old(ids)| < MAX_COUNT then Success else NoResources
      ensures cookie == if code == Success then |old(ids)| + 1 else 0
      ensures ids == if code == Success then old(ids) + [|old(heap)|] else old(ids)
      ensures heap[|old(heap)|].Value() == Fresh(size, env).(refs := if code == Success then 2 else 0)
    {
      var md := Allocate(size, env);
      var ok := Register(md, env.inserted);
      if !ok {
        md.Release();
        return NoResources, 0;
      }
      return Success, |boList.items|;
    }

    method UcCreateBuffer(bytes: uint32, env: Env) returns (code: IOReturn, cookie: uint64)
      requires Valid()
      modifies this`heap, this`ids, boList
      ensures Valid() && boList == old(boList) && Grew()
      ensures Created(Abs(), code, cookie) == CreateBuffer(old(Abs()), bytes, env)
    {
      if boList == null { return NotReady, 0; }
      var size := PageAlign(bytes);
      if !env.memory { return NoResources, 0; }
      code, cookie := CreateListed(size, env);
      assert Snapshot(heap) == AddRefs(old(Snapshot(heap)) + [Fresh(size, env)], |old(heap)|,
                                       if code == Success then 1 else -1);
    }

    /** Submits the batch and drops its only reference. */
    method SubmitBatch(md: MemoryDescriptor) returns (code: IOReturn)
      requires mmio == bar && md.Valid() && md.refs == 1 && md.length == PAGE
      modifies bar`trace, md`refs, md.data
      ensures code == SubmitCode(true, boot.Value(), Some(old(md.Value())))
      ensures bar.trace == old(bar.trace)
                         + if code == Success then RingLog(bar.device, old(bar.trace), true, boot.Value()) else []
      ensures md.Value() == old(md.Value()).(refs := 0, data := SubmitData(code, old(md.data[..])))
    {
      var cs := new XeCommandStream(mmio, boot);
      code := cs.SubmitNoop(md);
      md.Release();
    }

    method UcSubmitNoop(env: Env) returns (code: IOReturn)
      requires Valid()
      modifies this`heap, bar`trace
      ensures Valid() && Grew()
      ensures Submitted(Abs(), code) == Submit(bar.device, old(Abs()), env)
    {
      if mmio == null { return NotReady; }
      if !env.memory { return NoResources; }
      var md := Allocate(PAGE, env);
      code := SubmitBatch(md);
      assert Snapshot(heap) == old(Snapshot(heap)) + [md.Value()];
    }

    // ------------------------------------------------------------ register queries

    /** The caller's array is not the memory of a buffer. */
    ghost predicate Outside(out: array?<Word>)
      reads this
    {
      forall i :: 0 <= i < |heap| ==> heap[i].data != out
    }

    /** out[k] becomes the k-th register of a list whose first k are already there. */
    method ReadInto(out: array<Word>, offs: seq<Register>, k: nat, ghost t: Trace)
      requires Valid() && Outside(out) && mmio != null && k < |offs| && k < out.Length
      requires var r := BarReadsTo(bar.device, t, bar0Length, offs, k);
        bar.trace == t + r.events && out[..k] == r.values
      modifies bar`trace, out
      ensures var r := BarReadsTo(bar.device, t, bar0Length, offs, k + 1);
        bar.trace == t + r.events && out[..k + 1] == r.values
      ensures out[k + 1..] == old(out[k + 1..]) && Snapshot(heap) == old(Snapshot(heap))
    {
      var w := ReadNext(offs, k, t);
      out[k] := w;
      assert out[..k + 1] == out[..k] + [w];
    }

    /** The allow-listed registers from the first, as many as asked for and available. */
    method ReadAllowed(n: nat, out: array<Word>)
      requires Valid() && Outside(out) && mmio != null && n <= |SAFE_REGISTERS| && n <= out.Length
      modifies bar`trace, out
      ensures var r := BarReadsTo(bar.device, old(bar.trace), bar0Length, SAFE_REGISTERS, n);
        bar.trace == old(bar.trace) + r.events && out[..n] == r.values
      ensures out[n..] == old(out[n..]) && Snapshot(heap) == old(Snapshot(heap))
    {
      ghost var t := bar.trace;
      assert t + [] == t;
      for i := 0 to n
        invariant var r := BarReadsTo(bar.device, t, bar0Length, SAFE_REGISTERS, i);
          bar.trace == t + r.events && out[..i] == r.values
        invariant out[i..] == old(out[i..]) && Snapshot(heap) == old(Snapshot(heap))
      {
        ghost var rest := out[i..];
        ReadInto(out, SAFE_REGISTERS, i, t);
        assert out[i + 1..] == rest[1..] == old(out[i + 1..]);
      }
    }

    /** `counted` says whether the caller passed a place for the count. */
    method UcReadRegs(count: uint32, out: array?<Word>, counted: bool) returns (code: IOReturn, n: nat)
      requires Valid() && (out != null ==> out.Length >= SafeCount(count)) && Outside(out)
      modifies bar`trace, if out == null then {} else {out}
      ensures Valid() && Outside(out)
      ensures out == null || !counted ==>
        code == NotReady && Abs() == old(Abs()) && (out != null ==> out[..] == old(out[..]))
      ensures out != null && counted ==>
        var q := Query(bar.device, old(Abs()), SAFE_REGISTERS, SafeCount(count));
        && Abs() == q.state && code == q.code
        && out[..|q.values|] == q.values && out[|q.values|..] == old(out[..])[|q.values|..]
        && (code == Success ==> n == |q.values| == if count < 10 then count else 10)
    {
      n := 0;
      if mmio == null || out == null || !counted { return NotReady, 0; }
      n := if count < |SAFE_REGISTERS| then count else |SAFE_REGISTERS|;
      ReadAllowed(n, out);
      code := Success;
    }

    method ReadFour(out: array<Word>, offs: seq<Register>, k: nat, ghost t: Trace)
      requires Valid() && Outside(out) && mmio != null && k + 4 <= |offs| && k + 4 <= out.Length
      requires var r := BarReadsTo(bar.device, t, bar0Length, offs, k);
        bar.trace == t + r.events && out[..k] == r.values
      modifies bar`trace, out
      ensures var r := BarReadsTo(bar.device, t, bar0Length, offs, k + 4);
        bar.trace == t + r.events && out[..k + 4] == r.values
      ensures out[k + 4..] == old(out[k + 4..]) && Snapshot(heap) == old(Snapshot(heap))
    {
      ghost var rest := out[k + 4..];
      ReadInto(out, offs, k, t);
      assert out[k + 4..] == out[k + 1..][3..] == rest;
      ReadInto(out, offs, k + 1, t);
      assert out[k + 4..] == out[k + 2..][2..] == rest;
      ReadInto(out, offs, k + 2, t);
      assert out[k + 4..] == out[k + 3..][1..] == rest;
      ReadInto(out, offs, k + 3, t);
    }

    method ReadEight(out: array<Word>, offs: seq<Register>)
      requires Valid() && Outside(out) && mmio != null && |offs| == 8 <= out.Length
      modifies bar`trace, out
      ensures var r := BarReadsTo(bar.device, old(bar.trace), bar0Length, offs, 8);
        bar.trace == old(bar.trace) + r.events && out[..8] == r.values
      ensures out[8..] == old(out[8..]) && Snapshot(heap) == old(Snapshot(heap))
    {
      ghost var t := bar.trace;
      assert t + [] == t;
      ReadFour(out, offs, 0, t);
      ReadFour(out, offs, 4, t);
    }

    /** Power wells, RC state, forcewake and PM registers, in this order. */
    method UcGetGTConfig(out: array?<Word>, counted: bool) returns (code: IOReturn, n: nat)
      requires Valid() && (out != null ==> out.Length >= 8) && Outside(out)
      modifies bar`trace, if out == null then {} else {out}
      ensures Valid() && Outside(out)
      ensures out == null || !counted ==>
        code == NotReady && Abs() == old(Abs()) && (out != null ==> out[..] == old(out[..]))
      ensures out != null && counted ==>
        var q := Query(bar.device, old(Abs()), GT_CONFIG, 8);
        && Abs() == q.state && code == q.code && (code == Success ==> n == 8)
        && out[..8] == (if code == Success then q.values else old(out[..8])) && out[8..] == old(out[8..])
    {
      if mmio == null || out == null || !counted { return NotReady, 0; }
      ReadEight(out, GT_CONFIG);
      return Success, 8;
    }

    /** Pipe, DDI, plane, timing and panel registers, in this order. */
    method UcGetDisplayInfo(out: array?<Word>, counted: bool) returns (code: IOReturn, n: nat)
      requires Valid() && (out != null ==> out.Length >= 8) && Outside(out)
      modifies bar`trace, if out == null then {} else {out}
      ensures Valid() && Outside(out)
      ensures out == null || !counted ==>
        code == NotReady && Abs() == old(Abs()) && (out != null ==> out[..] == old(out[..]))
      ensures out != null && counted ==>
        var q := Query(bar.device, old(Abs()), DISPLAY_INFO, 8);
        && Abs() == q.state && code == q.code && (code == Success ==> n == 8)
        && out[..8] == (if code == Success then q.values else old(out[..8])) && out[8..] == old(out[8..])
    {
      if mmio == null || out == null || !counted { return NotReady, 0; }
      ReadEight(out, DISPLAY_INFO);
      return Success, 8;
    }
  }
}

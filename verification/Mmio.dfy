/** The device as seen through BAR0: a history of accesses, and the checked readers of the driver. */
module Mmio {
  import opened Hardware

  datatype Event =
    | Read(off: nat, value: Word)
    | Write(off: nat, value: Word)
    | Delay(us: nat)

  type Trace = seq<Event>

  /** A device: what a read of a dword returns may depend on the whole history. */
  type Device = (Trace, nat) -> Word

  /** Byte address of the dword that indexing by `off >> 2` touches. */
  function Dword(off: uint32): nat {
    off / 4 * 4
  }

  /** One access: the event it leaves (none when it was refused) and the value returned. */
  datatype Access = Access(events: Trace, value: Word)

  function Load(d: Device, t: Trace, off: uint32): Access {
    var w := d(t, Dword(off));
    Access([Read(Dword(off), w)], w)
  }

  /** The reader of the forcewake guard, the command stream and the GGTT probe. */
  function RawRead(d: Device, t: Trace, mapped: bool, off: uint32): Access {
    if !mapped then Access([], SENTINEL_NULL_MMIO)
    else if off > MAX_SAFE_OFFSET then Access([], SENTINEL_OUT_OF_RANGE)
    else Load(d, t, off)
  }

  /** The service's reader, which also knows the BAR length. */
  function BarRead(d: Device, t: Trace, mapped: bool, len: nat, off: uint32): Access {
    if !mapped then Access([], SENTINEL_NULL_MMIO)
    else if off > MAX_SAFE_OFFSET then Access([], SENTINEL_OUT_OF_RANGE)
    else if len > 0 && off >= len then Access([], SENTINEL_OUT_OF_RANGE)
    else Load(d, t, off)
  }

  /** Several accesses in order. */
  datatype Accesses = Accesses(events: Trace, values: seq<Word>)

  /** The first k reads of a list. */
  function RawReadsTo(d: Device, t: Trace, offs: seq<Register>, k: nat): (r: Accesses)
    requires k <= |offs|
    ensures |r.values| == k
    decreases k, |t|
  {
    if k == 0 then Accesses([], [])
    else
      var before := RawReadsTo(d, t, offs, k - 1);
      var last := RawRead(d, t + before.events, true, offs[k - 1]);
      Accesses(before.events + last.events, before.values + [last.value])
  }

  function RawReads(d: Device, t: Trace, offs: seq<Register>): Accesses {
    RawReadsTo(d, t, offs, |offs|)
  }

  function BarReadsTo(d: Device, t: Trace, len: nat, offs: seq<Register>, k: nat): (r: Accesses)
    requires k <= |offs|
    ensures |r.values| == k
    decreases k, |t|
  {
    if k == 0 then Accesses([], [])
    else
      var before := BarReadsTo(d, t, len, offs, k - 1);
      var last := BarRead(d, t + before.events, true, len, offs[k - 1]);
      Accesses(before.events + last.events, before.values + [last.value])
  }

  function BarReads(d: Device, t: Trace, len: nat, offs: seq<Register>): Accesses {
    BarReadsTo(d, t, len, offs, |offs|)
  }

  // ---------------------------------------------------------------- properties of events

  ghost predicate OnlyReads(es: Trace, offs: seq<Register>) {
    forall e :: e in es ==> e.Read? && e.off in offs
  }

  /** Every access lies wholly inside a BAR of this length. */
  ghost predicate InBar(es: Trace, len: nat) {
    forall e :: e in es ==> e.Delay? || e.off + 4 <= len
  }

  ghost predicate NoWrites(es: Trace) {
    forall e :: e in es ==> !e.Write?
  }

  lemma {:induction false} RawReadsToEvents(d: Device, t: Trace, offs: seq<Register>, k: nat, len: nat)
    requires k <= |offs|
    ensures |RawReadsTo(d, t, offs, k).events| == k
    ensures OnlyReads(RawReadsTo(d, t, offs, k).events, offs)
    ensures InBar(RawReadsTo(d, t, offs, k).events, len) <==> forall i :: 0 <= i < k ==> offs[i] + 4 <= len
    decreases k
  {
    if k > 0 {
      RawReadsToEvents(d, t, offs, k - 1, len);
      var e := Read(offs[k - 1], RawReadsTo(d, t, offs, k).values[k - 1]);
      assert e in RawReadsTo(d, t, offs, k).events;
    }
  }

  /** Unchecked reads touch exactly the listed registers, so they fit a BAR exactly when all of those do. */
  lemma RawReadsEvents(d: Device, t: Trace, offs: seq<Register>, len: nat)
    ensures |RawReads(d, t, offs).events| == |offs|
    ensures OnlyReads(RawReads(d, t, offs).events, offs)
    ensures InBar(RawReads(d, t, offs).events, len) <==> forall i :: 0 <= i < |offs| ==> offs[i] + 4 <= len
  {
    RawReadsToEvents(d, t, offs, |offs|, len);
  }

  lemma {:induction false} BarReadsToEvents(d: Device, t: Trace, len: nat, offs: seq<Register>, k: nat)
    requires k <= |offs|
    ensures OnlyReads(BarReadsTo(d, t, len, offs, k).events, offs)
    ensures len % 4 == 0 && len > 0 ==> InBar(BarReadsTo(d, t, len, offs, k).events, len)
    decreases k
  {
    if k > 0 {
      BarReadsToEvents(d, t, len, offs, k - 1);
    }
  }

  /** Checked reads touch only listed registers and always stay inside an aligned BAR. */
  lemma BarReadsEvents(d: Device, t: Trace, len: nat, offs: seq<Register>)
    ensures OnlyReads(BarReads(d, t, len, offs).events, offs)
    ensures len % 4 == 0 && len > 0 ==> InBar(BarReads(d, t, len, offs).events, len)
  {
    BarReadsToEvents(d, t, len, offs, |offs|);
  }

  /** A list read delivers, in order, what the device answers to each read at its moment, or the range sentinel. */
  lemma {:induction false} BarReadsInOrder(d: Device, t: Trace, len: nat, offs: seq<Register>, k: nat, i: nat)
    requires i < k <= |offs|
    ensures BarReadsTo(d, t, len, offs, k).values[i] ==
      if len > 0 && offs[i] >= len then SENTINEL_OUT_OF_RANGE
      else d(t + BarReadsTo(d, t, len, offs, i).events, offs[i])
    decreases k
  {
    if i < k - 1 {
      BarReadsInOrder(d, t, len, offs, k - 1, i);
    }
  }

  /** A checked read without a pointer returns the null sentinel and out of range the range sentinel, both without
      an access; every other one touches the dword that holds its offset, wholly inside an aligned BAR. */
  lemma BarReadInside(d: Device, t: Trace, mapped: bool, len: nat, off: uint32)
    ensures var r := BarRead(d, t, mapped, len, off);
      if !mapped then r == Access([], 0xDEAD_BEEF)
      else if off > 0xFF_FFFF || (len > 0 && off >= len) then r == Access([], 0xBAD0_FFFF)
      else
        var dword := off - off % 4;
        && r.events == [Read(dword, r.value)] && r.value == d(t, dword)
        && (len % 4 == 0 && len > 0 ==> dword + 4 <= len)
  {
  }

  /** The two readers agree on every device and history exactly when the BAR check cannot fire. */
  lemma ReadersAgree(mapped: bool, len: nat, off: uint32)
    ensures (forall d: Device, t: Trace :: BarRead(d, t, mapped, len, off) == RawRead(d, t, mapped, off))
      <==> (!mapped || len == 0 || off < len || off > 0xFF_FFFF)
  {
    if mapped && len > 0 && len <= off <= MAX_SAFE_OFFSET {
      var d: Device := (_, _) => 0;
      assert BarRead(d, [], mapped, len, off).events == [];
      assert RawRead(d, [], mapped, off).events != [];
    }
  }
}

/** Reference-counted buffers and the list that registers them. */
module Buffers {
  import opened Hardware
  import opened CommandStream
  import opened Driver

  class MemoryDescriptor {
    var refs: int
    const addressed: bool
    const length: nat
    const data: array<Word>

    /** Position among all buffers ever allocated. */
    ghost const id: nat

    ghost predicate Valid() {
      data.Length == length / 4
    }

    ghost function Value(): Buffer
      reads this, data
    {
      Buffer(refs, addressed, length, data[..])
    }

    constructor (length: nat, env: Env, ghost id: nat)
      ensures Valid() && fresh(data) && this.length == length && this.id == id
      ensures Value() == Fresh(length, env)
    {
      refs, addressed := 1, env.addressed;
      this.length, this.id := length, id;
      var memory := new Word[length / 4](i => env.fill(i));
      data := memory;
      new;
      assert forall i :: 0 <= i < data.Length ==> data[i] == env.fill(i);
      assert data[..] == Filled(length / 4, env.fill);
    }

    method Retain()
      requires refs > 0
      modifies this`refs
      ensures refs == old(refs) + 1
    {
      refs := refs + 1;
    }

    /** A buffer without references is gone and must not be released again. */
    method Release()
      requires refs > 0
      modifies this`refs
      ensures refs == old(refs) - 1
    {
      refs := refs - 1;
    }
  }

  /** The values of a list of buffers. */
  ghost function Snapshot(h: seq<MemoryDescriptor>): (r: seq<Buffer>)
    reads h, set i | 0 <= i < |h| :: h[i].data
    ensures |r| == |h| && forall i :: 0 <= i < |h| ==> r[i] == h[i].Value()
  {
    seq(|h|, i requires 0 <= i < |h| reads h, set j | 0 <= j < |h| :: h[j].data => h[i].Value())
  }

  /** Every buffer knows its position, so no two of them are the same object. */
  ghost predicate Separate(h: seq<MemoryDescriptor>) {
    forall i :: 0 <= i < |h| ==> h[i].Valid() && h[i].id == i
  }

  /** The listed buffers are the ones at these positions. */
  ghost predicate Lists(items: seq<MemoryDescriptor>, ids: seq<nat>, h: seq<MemoryDescriptor>) {
    && |items| == |ids|
    && forall k :: 0 <= k < |ids| ==> ids[k] < |h| && items[k] == h[ids[k]]
  }

  /** Releases one listed buffer and touches no other. */
  method ReleaseItem(items: seq<MemoryDescriptor>, i: nat, ghost ids: seq<nat>, ghost h: seq<MemoryDescriptor>)
    requires Separate(h) && Lists(items, ids, h) && i < |items| && items[i].refs > 0
    requires forall i, j :: 0 <= i < j < |ids| ==> ids[i] != ids[j]
    modifies items[i]
    ensures Snapshot(h) == AddRefs(old(Snapshot(h)), ids[i], -1)
    ensures forall k :: 0 <= k < |items| ==> items[k].refs == old(items[k].refs) - if k == i then 1 else 0
  {
    items[i].Release();
  }

  /** One release of every listed buffer, in order. */
  method ReleaseItems(items: seq<MemoryDescriptor>, ghost ids: seq<nat>, ghost h: seq<MemoryDescriptor>)
    requires Separate(h) && Lists(items, ids, h)
    requires forall i, j :: 0 <= i < j < |ids| ==> ids[i] != ids[j]
    requires forall k :: 0 <= k < |items| ==> items[k].refs > 0
    modifies items
    ensures Snapshot(h) == ReleaseAll(old(Snapshot(h)), ids)
    ensures forall k :: 0 <= k < |items| ==> items[k].refs == old(items[k].refs) - 1
  {
    ghost var before := Snapshot(h);
    var i := 0;
    while i < |items|
      invariant 0 <= i <= |items|
      invariant Snapshot(h) == ReleaseAll(before, ids[..i])
      invariant forall k :: 0 <= k < |items| ==> items[k].refs == old(items[k].refs) - if k < i then 1 else 0
    {
      ReleaseItem(items, i, ids, h);
      assert ids[..i + 1][..i] == ids[..i];
      i := i + 1;
    }
    assert ids[..i] == ids;
  }

  /** The growable array: appending may fail, keeps a reference on success; freeing drops every reference it keeps. */
  class BoList {
    var items: seq<MemoryDescriptor>

    constructor ()
      ensures items == []
    {
      items := [];
    }

    method SetObject(md: MemoryDescriptor, grown: bool) returns (ok: bool)
      requires md.refs > 0
      modifies this, md`refs
      ensures ok == (grown && |old(items)| < MAX_COUNT)
      ensures items == (if ok then old(items) + [md] else old(items))
      ensures md.refs == old(md.refs) + (if ok then 1 else 0)
    {
      ok := grown && |items| < MAX_COUNT;
      if ok {
        md.Retain();
        items := items + [md];
      }
    }
  }
}

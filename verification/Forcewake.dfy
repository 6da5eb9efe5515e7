/** The forcewake handshake: what a guard does to the device, and the protocol it must follow. */
module Forcewake {
  import opened Hardware
  import opened Mmio
  import opened BootArgs

  datatype Opened = Opened(events: Trace, acquired: bool)

  /** Polls for the acknowledgement, at most `n` more times. */
  function Poll(d: Device, t: Trace, n: nat): Opened
    decreases n, |t|
  {
    if n == 0 then Opened([], false)
    else
      var ack := RawRead(d, t, true, FORCEWAKE_ACK);
      if Sentinel(ack.value) then Opened(ack.events, false)
      else if ack.value & 1 != 0 then Opened(ack.events, true)
      else
        var es := ack.events + [Delay(POLL_DELAY)];
        var rest := Poll(d, t + es, n - 1);
        Opened(es + rest.events, rest.acquired)
  }

  /** What constructing a guard does. */
  function Open(d: Device, t: Trace, mapped: bool, flags: Flags): Opened {
    if !mapped || flags.disableForcewake || flags.strictSafe then Opened([], false)
    else
      var request := [Write(FORCEWAKE_REQ, REQUEST_SET)];
      var polled := Poll(d, t + request, MAX_POLLS);
      Opened(request + polled.events, polled.acquired)
  }

  /** What destroying a guard does. */
  function Close(acquired: bool): Trace {
    if acquired then [Write(FORCEWAKE_REQ, REQUEST_CLEAR)] else []
  }

  // ---------------------------------------------------------------- outcome of polling

  /** The events of polls that are each answered by the given word and followed by a delay. */
  function Refused(acks: seq<Word>): Trace {
    if acks == [] then []
    else [Read(FORCEWAKE_ACK, acks[0]), Delay(POLL_DELAY)] + Refused(acks[1..])
  }

  /** The words are the device's successive answers, each without bit 0. */
  ghost predicate RefusedBy(d: Device, t: Trace, acks: seq<Word>) {
    forall i :: 0 <= i < |acks| ==> RefusedAt(d, t, acks, i)
  }

  ghost predicate RefusedAt(d: Device, t: Trace, acks: seq<Word>, i: nat)
    requires i < |acks|
  {
    acks[i] & 1 == 0 && acks[i] == d(t + Refused(acks[..i]), FORCEWAKE_ACK)
  }

  lemma RefusedFirst(d: Device, t: Trace, ack: Word, acks: seq<Word>)
    requires ack == d(t, FORCEWAKE_ACK) && ack & 1 == 0
    requires RefusedBy(d, t + Refused([ack]), acks)
    ensures RefusedBy(d, t, [ack] + acks)
    ensures Refused([ack] + acks) == Refused([ack]) + Refused(acks)
  {
    var all := [ack] + acks;
    assert all[1..] == acks && Refused([ack][1..]) == [];
    assert t + Refused(all[..0]) == t;
    forall i | 0 < i < |all|
      ensures RefusedAt(d, t, all, i)
    {
      assert RefusedAt(d, t + Refused([ack]), acks, i - 1);
      assert all[..i][1..] == acks[..i - 1];
      assert t + Refused(all[..i]) == t + Refused([ack]) + Refused(acks[..i - 1]);
    }
  }

  lemma LowBit(w: Word)
    ensures w & 1 == 0 || w & 1 == 1
    ensures Sentinel(w) ==> w & 1 == 1
  {
  }

  /** One step of polling, by what the device answers. */
  lemma PollStep(d: Device, t: Trace, n: nat, ack: Word)
    requires n > 0 && ack == d(t, FORCEWAKE_ACK)
    ensures ack & 1 == 1 ==> Poll(d, t, n) == Opened([Read(FORCEWAKE_ACK, ack)], !Sentinel(ack))
    ensures ack & 1 == 0 ==>
      var rest := Poll(d, t + Refused([ack]), n - 1);
      Poll(d, t, n) == Opened(Refused([ack]) + rest.events, rest.acquired)
  {
    LowBit(ack);
    assert Refused([ack][1..]) == [];
    assert [Read(FORCEWAKE_ACK, ack)] + [Delay(POLL_DELAY)] == Refused([ack]);
  }

  /** These are all the refusals of up to n polls: n of them, or the next answer has bit 0 set. */
  ghost predicate PollEnds(d: Device, t: Trace, n: nat, acks: seq<Word>) {
    && RefusedBy(d, t, acks) && |acks| <= n
    && (|acks| < n ==> d(t + Refused(acks), FORCEWAKE_ACK) & 1 == 1)
  }

  /** What polling then amounts to: it succeeds if there was an odd answer and that is no sentinel. */
  function PollResult(d: Device, t: Trace, n: nat, acks: seq<Word>): Opened {
    if |acks| < n then
      var last := d(t + Refused(acks), FORCEWAKE_ACK);
      Opened(Refused(acks) + [Read(FORCEWAKE_ACK, last)], !Sentinel(last))
    else Opened(Refused(acks), false)
  }

  lemma {:induction false} PollOutcome(d: Device, t: Trace, n: nat) returns (acks: seq<Word>)
    ensures PollEnds(d, t, n, acks)
    ensures Poll(d, t, n) == PollResult(d, t, n, acks)
    decreases n
  {
    acks := [];
    assert t + [] == t;
    if n > 0 {
      var ack := d(t, FORCEWAKE_ACK);
      LowBit(ack);
      PollStep(d, t, n, ack);
      if ack & 1 == 0 {
        acks := PollOutcome(d, t + Refused([ack]), n - 1);
        RefusedFirst(d, t, ack, acks);
        assert t + Refused([ack]) + Refused(acks) == t + (Refused([ack]) + Refused(acks));
        acks := [ack] + acks;
      }
    }
  }

  lemma {:induction false} RefusalsAgree(d: Device, t: Trace, a: seq<Word>, b: seq<Word>)
    requires RefusedBy(d, t, a) && RefusedBy(d, t, b) && |a| <= |b|
    ensures a == b[..|a|]
  {
    if a != [] {
      var n := |a| - 1;
      forall i | 0 <= i < n
        ensures RefusedAt(d, t, a[..n], i)
      {
        assert RefusedAt(d, t, a, i) && a[..n][..i] == a[..i];
      }
      RefusalsAgree(d, t, a[..n], b);
      assert RefusedAt(d, t, a, n) && RefusedAt(d, t, b, n);
      assert a[..n] == b[..n] && a == a[..n] + [a[n]];
    }
  }

  lemma NoMoreRefusals(d: Device, t: Trace, n: nat, a: seq<Word>, b: seq<Word>)
    requires PollEnds(d, t, n, a) && RefusedBy(d, t, b) && |b| <= n
    ensures |b| <= |a|
  {
    if |a| < |b| {
      assert RefusedAt(d, t, b, |a|);
      RefusalsAgree(d, t, a, b);
    }
  }

  /** The device's answers determine the outcome: acquisition succeeds exactly when, within n polls, an answer
      has bit 0 set and the first such answer is no sentinel; there is one delay per answer before it. */
  lemma PollDetermined(d: Device, t: Trace, n: nat, acks: seq<Word>)
    requires PollEnds(d, t, n, acks)
    ensures Poll(d, t, n) == PollResult(d, t, n, acks)
  {
    var other := PollOutcome(d, t, n);
    NoMoreRefusals(d, t, n, acks, other);
    NoMoreRefusals(d, t, n, other, acks);
    RefusalsAgree(d, t, acks, other);
    assert acks == other;
  }

  lemma {:induction false} RefusedLast(acks: seq<Word>, ack: Word)
    ensures Refused(acks + [ack]) == Refused(acks) + [Read(FORCEWAKE_ACK, ack), Delay(POLL_DELAY)]
  {
    if acks == [] {
      assert Refused([ack][1..]) == [] && acks + [ack] == [ack];
    } else {
      assert (acks + [ack])[1..] == acks[1..] + [ack];
      RefusedLast(acks[1..], ack);
    }
  }

  /** One more refusal. */
  lemma RefusedByLast(d: Device, t: Trace, acks: seq<Word>, ack: Word)
    requires RefusedBy(d, t, acks) && ack == d(t + Refused(acks), FORCEWAKE_ACK) && ack & 1 == 0
    ensures RefusedBy(d, t, acks + [ack])
    ensures t + Refused(acks + [ack]) == t + Refused(acks) + [Read(FORCEWAKE_ACK, ack)] + [Delay(POLL_DELAY)]
  {
    RefusedLast(acks, ack);
    var all := acks + [ack];
    forall i | 0 <= i < |all|
      ensures RefusedAt(d, t, all, i)
    {
      assert all[..i] == acks[..i];
      if i < |acks| {
        assert RefusedAt(d, t, acks, i);
      } else {
        assert acks[..i] == acks;
      }
    }
  }

  // ---------------------------------------------------------------- protocol monitor

  /** Where the handshake stands, seen from outside. */
  datatype Phase = Idle | Polling(left: nat) | Waiting(left: nat) | Held | Lost | Broken

  /** Ring reads need a held or a tried-and-lost request; a clear needs a held one. */
  function Next(p: Phase, e: Event): Phase {
    match p
    case Idle =>
      if e.Read? && !RingOffset(e.off) then Idle
      else if e == Write(FORCEWAKE_REQ, REQUEST_SET) then Polling(MAX_POLLS)
      else Broken
    case Polling(n) =>
      if !(e.Read? && e.off == FORCEWAKE_ACK) then Broken
      else if Sentinel(e.value) then Lost
      else if e.value & 1 != 0 then Held
      else Waiting(n)
    case Waiting(n) =>
      if e != Delay(POLL_DELAY) || n == 0 then Broken
      else if n == 1 then Lost
      else Polling(n - 1)
    case Held =>
      if e.Read? && RingOffset(e.off) then Held
      else if e == Write(FORCEWAKE_REQ, REQUEST_CLEAR) then Idle
      else Broken
    case Lost =>
      if e.Read? then Lost
      else if e == Write(FORCEWAKE_REQ, REQUEST_SET) then Polling(MAX_POLLS)
      else Broken
    case Broken => Broken
  }

  function Watch(p: Phase, es: Trace): Phase {
    if es == [] then p else Next(Watch(p, es[..|es| - 1]), es[|es| - 1])
  }

  lemma {:induction false} WatchAppend(p: Phase, a: Trace, b: Trace)
    ensures Watch(p, a + b) == Watch(Watch(p, a), b)
  {
    if b == [] {
      assert a + b == a;
    } else {
      assert (a + b)[..|a + b| - 1] == a + b[..|b| - 1];
      WatchAppend(p, a, b[..|b| - 1]);
    }
  }

  lemma WatchOne(p: Phase, e: Event)
    ensures Watch(p, [e]) == Next(p, e)
  {
    assert [e][..0] == [];
  }

  lemma WatchRefused(n: nat, ack: Word)
    requires n > 0 && ack & 1 == 0
    ensures Watch(Polling(n), [Read(FORCEWAKE_ACK, ack), Delay(POLL_DELAY)]) == if n == 1 then Lost else Polling(n - 1)
  {
    LowBit(ack);
    var poll := [Read(FORCEWAKE_ACK, ack), Delay(POLL_DELAY)];
    assert poll[..1] == [poll[0]];
    WatchOne(Polling(n), poll[0]);
  }

  lemma {:induction false} WatchAllRefused(n: nat, acks: seq<Word>)
    requires 0 < n && |acks| <= n && forall i :: 0 <= i < |acks| ==> acks[i] & 1 == 0
    ensures Watch(Polling(n), Refused(acks)) == if |acks| == n then Lost else Polling(n - |acks|)
  {
    if acks != [] {
      var k := |acks| - 1;
      WatchAllRefused(n, acks[..k]);
      WatchRefused(n - k, acks[k]);
      assert acks == acks[..k] + [acks[k]];
      RefusedLast(acks[..k], acks[k]);
      WatchAppend(Polling(n), Refused(acks[..k]), [Read(FORCEWAKE_ACK, acks[k]), Delay(POLL_DELAY)]);
    }
  }

  lemma WatchPoll(d: Device, t: Trace, n: nat)
    requires n > 0
    ensures var r := Poll(d, t, n); Watch(Polling(n), r.events) == if r.acquired then Held else Lost
  {
    var acks := PollOutcome(d, t, n);
    forall i | 0 <= i < |acks|
      ensures acks[i] & 1 == 0
    {
      assert RefusedAt(d, t, acks, i);
    }
    WatchAllRefused(n, acks);
    if |acks| < n {
      var e := Read(FORCEWAKE_ACK, d(t + Refused(acks), FORCEWAKE_ACK));
      WatchAppend(Polling(n), Refused(acks), [e]);
      WatchOne(Polling(n - |acks|), e);
    }
  }

  lemma WatchOpen(p: Phase, d: Device, t: Trace, flags: Flags)
    requires p == Idle || p == Lost
    requires !flags.disableForcewake && !flags.strictSafe
    ensures var r := Open(d, t, true, flags); Watch(p, r.events) == if r.acquired then Held else Lost
  {
    var request := [Write(FORCEWAKE_REQ, REQUEST_SET)];
    WatchOne(p, request[0]);
    WatchPoll(d, t + request, MAX_POLLS);
    WatchAppend(p, request, Poll(d, t + request, MAX_POLLS).events);
  }

  /** Ordinary register reads leave a resting monitor where it is; ring reads do once a request was made. */
  lemma {:induction false} WatchReads(p: Phase, es: Trace, offs: seq<Register>)
    requires OnlyReads(es, offs)
    requires p == Lost
      || (p == Idle && forall off :: off in offs ==> !RingOffset(off))
      || (p == Held && forall off :: off in offs ==> RingOffset(off))
    ensures Watch(p, es) == p
  {
    if es != [] {
      assert es[|es| - 1] in es;
      WatchReads(p, es[..|es| - 1], offs);
    }
  }

  /** Event j is a request and nothing was written since. */
  ghost predicate Standing(es: Trace, j: nat) {
    && j < |es| && es[j] == Write(FORCEWAKE_REQ, REQUEST_SET)
    && forall i :: j < i < |es| ==> !es[i].Write?
  }

  /** Event i is an acknowledgement. */
  predicate Grant(es: Trace, i: nat) {
    i < |es| && es[i].Read? && es[i].off == FORCEWAKE_ACK && es[i].value & 1 != 0 && !Sentinel(es[i].value)
  }

  /** Whenever the monitor is not idle a request stands, and when it is held an acknowledgement came since. */
  lemma {:induction false} RequestStands(es: Trace) returns (j: nat, i: nat)
    requires Watch(Idle, es) != Idle && Watch(Idle, es) != Broken
    ensures Standing(es, j)
    ensures Watch(Idle, es) == Held ==> j < i && Grant(es, i)
  {
    var n := |es| - 1;
    var front, e := es[..n], es[n];
    if e == Write(FORCEWAKE_REQ, REQUEST_SET) {
      j, i := n, n;
    } else {
      j, i := RequestStands(front);
      if Watch(Idle, front) != Held {
        i := n;
      }
    }
  }

  /** Some request stands: it was the last thing written. */
  ghost predicate Pending(es: Trace) {
    exists j: nat :: Standing(es, j)
  }

  /** An idle monitor means that no request stands. */
  lemma {:induction false} IdleIsSettled(es: Trace, j: nat)
    requires Watch(Idle, es) == Idle
    ensures !Standing(es, j)
  {
    if es != [] {
      var n := |es| - 1;
      var front := es[..n];
      if Watch(Idle, front) == Idle {
        IdleIsSettled(front, j);
        assert Standing(es, j) && j < n ==> Standing(front, j);
      }
    }
  }

  /** Events without writes neither make nor end a standing request. */
  lemma QuietKeepsStanding(t: Trace, es: Trace, j: nat)
    requires NoWrites(es)
    ensures Standing(t + es, j) <==> Standing(t, j)
  {
    var all := t + es;
    assert forall i :: |t| <= i < |all| ==> all[i] == es[i - |t|] && es[i - |t|] in es;
    assert forall i :: 0 <= i < |t| ==> all[i] == t[i];
  }

  lemma {:induction false} BrokenStays(es: Trace)
    ensures Watch(Broken, es) == Broken
  {
    if es != [] {
      BrokenStays(es[..|es| - 1]);
    }
  }

  /** Every prefix of an accepted history is accepted. */
  lemma AcceptedPrefix(es: Trace, k: nat)
    requires k <= |es| && Watch(Idle, es) != Broken
    ensures Watch(Idle, es[..k]) != Broken
  {
    assert es == es[..k] + es[k..];
    WatchAppend(Idle, es[..k], es[k..]);
    BrokenStays(es[k..]);
  }

  /** In an accepted history every ring read follows a request with no write in between. */
  lemma RingReadAfterRequest(es: Trace, k: nat) returns (j: nat)
    requires Watch(Idle, es) != Broken && k < |es| && es[k].Read? && RingOffset(es[k].off)
    ensures j < k && Standing(es[..k], j)
  {
    AcceptedPrefix(es, k + 1);
    assert es[..k + 1][..k] == es[..k];
    var i;
    j, i := RequestStands(es[..k]);
  }

  /** In an accepted history every clear follows a request and then its acknowledgement, with no write in between. */
  lemma ClearAfterGrant(es: Trace, k: nat) returns (j: nat, i: nat)
    requires Watch(Idle, es) != Broken && k < |es| && es[k] == Write(FORCEWAKE_REQ, REQUEST_CLEAR)
    ensures j < i < k && Standing(es[..k], j) && Grant(es, i)
  {
    AcceptedPrefix(es, k + 1);
    assert es[..k + 1][..k] == es[..k];
    j, i := RequestStands(es[..k]);
  }

  // ---------------------------------------------------------------- request register

  /** A masked write: the upper half selects bits, the lower half gives their values. */
  function MaskedWrite(r: bv16, w: Word): bv16 {
    var mask := ((w >> 16) & 0xFFFF) as bv16;
    var value := (w & 0xFFFF) as bv16;
    (r & !mask) | (value & mask)
  }

  /** Contents of the request register after these events. */
  function Request(r: bv16, es: Trace): bv16 {
    if es == [] then r
    else
      var before := Request(r, es[..|es| - 1]);
      var e := es[|es| - 1];
      if e.Write? && e.off == FORCEWAKE_REQ then MaskedWrite(before, e.value) else before
  }

  /** What a register that held `r` shows: bit 0 is the last bit written, or that of `r` if nothing was, and the other
      15 bits are those of `r`. */
  function Shown(r: bv16, requested: bool, quiet: bool): bv16 {
    if requested then r | 1 else if quiet then r else r & 0xFFFE
  }

  lemma MaskedWriteBits(r: bv16)
    ensures MaskedWrite(r, REQUEST_SET) == r | 1
    ensures MaskedWrite(r, REQUEST_CLEAR) == r & 0xFFFE
  {
    assert ((REQUEST_SET >> 16) & 0xFFFF) as bv16 == 1 && (REQUEST_SET & 0xFFFF) as bv16 == 1;
    assert ((REQUEST_CLEAR >> 16) & 0xFFFF) as bv16 == 1 && (REQUEST_CLEAR & 0xFFFF) as bv16 == 0;
  }

  lemma NextWrite(p: Phase, e: Event)
    requires Next(p, e) != Broken
    ensures e.Write? ==> e.off == FORCEWAKE_REQ && e.value in {REQUEST_SET, REQUEST_CLEAR}
    ensures e.Write? && e.value == REQUEST_SET ==> Next(p, e) != Idle
    ensures e.Write? && e.value == REQUEST_CLEAR ==> p == Held && Next(p, e) == Idle
    ensures !e.Write? ==> (p == Idle <==> Next(p, e) == Idle)
  {
  }

  lemma {:induction false} QuietKeepsRequest(r: bv16, t: Trace, es: Trace)
    requires NoWrites(es)
    ensures Request(r, t + es) == Request(r, t)
  {
    if es == [] {
      assert t + es == t;
    } else {
      var n := |es| - 1;
      assert es[n] in es && (t + es)[..|t| + n] == t + es[..n];
      QuietKeepsRequest(r, t, es[..n]);
    }
  }

  lemma ShownNext(r: bv16, shown: bv16, requested: bool, quiet: bool)
    requires shown == Shown(r, requested, quiet)
    ensures shown | 1 == r | 1 && shown & 0xFFFE == r & 0xFFFE
  {
  }

  /** Bits 1 to 15 never change, and bit 0 tells whether a request stands exactly if it was clear at first or
      something was written. */
  lemma ShownBits(r: bv16, shown: bv16, requested: bool, quiet: bool)
    requires shown == Shown(r, requested, quiet) && (requested ==> !quiet)
    ensures shown & 0xFFFE == r & 0xFFFE
    ensures (shown & 1 == 1 <==> requested) <==> r & 1 == 0 || !quiet
  {
  }

  lemma QuietEnd(es: Trace, e: Event)
    ensures NoWrites(es + [e]) <==> NoWrites(es) && !e.Write?
  {
    assert forall f :: f in es + [e] <==> f in es || f == e;
  }

  lemma ReadShown(r: bv16, es: Trace, e: Event, requested: bool)
    requires Request(r, es) == Shown(r, requested, NoWrites(es)) && !e.Write?
    ensures Request(r, es + [e]) == Shown(r, requested, NoWrites(es + [e]))
  {
    QuietEnd(es, e);
    assert (es + [e])[..|es|] == es;
  }

  lemma SetShown(r: bv16, es: Trace, requested: bool)
    requires Request(r, es) == Shown(r, requested, NoWrites(es))
    ensures var all := es + [Write(FORCEWAKE_REQ, REQUEST_SET)]; Request(r, all) == Shown(r, true, NoWrites(all))
  {
    assert (es + [Write(FORCEWAKE_REQ, REQUEST_SET)])[..|es|] == es;
    MaskedWriteBits(Request(r, es));
    ShownNext(r, Request(r, es), requested, NoWrites(es));
  }

  lemma ClearShown(r: bv16, es: Trace, requested: bool)
    requires Request(r, es) == Shown(r, requested, NoWrites(es))
    ensures var all := es + [Write(FORCEWAKE_REQ, REQUEST_CLEAR)]; Request(r, all) == Shown(r, false, NoWrites(all))
  {
    QuietEnd(es, Write(FORCEWAKE_REQ, REQUEST_CLEAR));
    assert (es + [Write(FORCEWAKE_REQ, REQUEST_CLEAR)])[..|es|] == es;
    MaskedWriteBits(Request(r, es));
    ShownNext(r, Request(r, es), requested, NoWrites(es));
  }

  /** Along any history the monitor accepts, the register shows a request exactly off rest, whatever it held before. */
  lemma {:induction false} RequestFollowsMonitor(r: bv16, es: Trace)
    requires Watch(Idle, es) != Broken
    ensures Request(r, es) == Shown(r, Watch(Idle, es) != Idle, NoWrites(es))
  {
    if es != [] {
      var before, e := es[..|es| - 1], es[|es| - 1];
      RequestFollowsMonitor(r, before);
      NextWrite(Watch(Idle, before), e);
      assert es == before + [e];
      var requested := Watch(Idle, before) != Idle;
      if !e.Write? {
        ReadShown(r, before, e, requested);
      } else if e.value == REQUEST_SET {
        SetShown(r, before, requested);
      } else {
        ClearShown(r, before, requested);
      }
    }
  }
}

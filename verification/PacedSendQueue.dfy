/**
 The ring buffer of the paced send queue and its loops, proved to compute the functions of
 `PacedQueue` and to settle every reservation they let go of.
 */
module PacedSendQueue {
  import opened Pacing
  import opened SeqTranslation
  import opened PacedQueue

  // --------------------------------------------------------------------------- the ring

  /** The place `i` steps after `head`. */
  function Slot(head: nat, i: nat): (p: nat)
    requires head < CAPACITY && i <= CAPACITY
    ensures p < CAPACITY
  {
    if head + i < CAPACITY then head + i else head + i - CAPACITY
  }

  lemma SlotIsModular(head: nat, i: nat)
    requires head < CAPACITY && i <= CAPACITY
    ensures Slot(head, i) == (head + i) % CAPACITY
  {
    if head + i >= CAPACITY { assert (head + i) % CAPACITY == (head + i - CAPACITY) % CAPACITY; }
  }

  /** The `count` entries that start at `head`, around the end of the buffer. */
  ghost function Window(ring: seq<Item>, head: nat, count: nat): (w: seq<Item>)
    requires |ring| == CAPACITY && head < CAPACITY && count <= CAPACITY
    ensures |w| == count && forall i | 0 <= i < count :: w[i] == ring[Slot(head, i)]
  {
    (ring + ring)[head..head + count]
  }

  lemma WindowPush(ring: seq<Item>, head: nat, count: nat, item: Item)
    requires |ring| == CAPACITY && head < CAPACITY && count < CAPACITY
    ensures Window(ring[Slot(head, count) := item], head, count + 1) == Window(ring, head, count) + [item]
  {
  }

  /** Overwriting the last entry and leaving it out of the window. */
  lemma WindowShrink(ring: seq<Item>, head: nat, count: nat, item: Item)
    requires |ring| == CAPACITY && head < CAPACITY && 0 < count <= CAPACITY
    ensures Window(ring[Slot(head, count - 1) := item], head, count - 1) == Window(ring, head, count)[..count - 1]
  {
  }

  /** Overwriting the first entry and leaving it out of the window. */
  lemma WindowDrop(ring: seq<Item>, head: nat, count: nat, item: Item)
    requires |ring| == CAPACITY && head < CAPACITY && 0 < count <= CAPACITY
    ensures Window(ring[head := item], Slot(head, 1), count - 1) == Window(ring, head, count)[1..]
  {
  }

  lemma WindowSet(ring: seq<Item>, head: nat, count: nat, i: nat, item: Item)
    requires |ring| == CAPACITY && head < CAPACITY && i < count <= CAPACITY
    ensures Window(ring[Slot(head, i) := item], head, count) == Window(ring, head, count)[i := item]
  {
  }

  // ------------------------------------------------------------------ facts about loops

  lemma {:induction false} RebasedAt(items: seq<Item>, base: int, i: nat)
    requires i < |items|
    ensures i < |Rebased(items, base)| && Rebased(items, base)[i] == items[i].(release := base + Spans(items[..i]))
  {
    if i > 0 {
      RebasedAt(items[1..], base + items[0].span, i - 1);
      assert items[..i][1..] == items[1..][..i - 1];
    }
  }

  lemma {:induction false} SpansAppend(items: seq<Item>, i: nat)
    requires i < |items|
    ensures Spans(items[..i + 1]) == Spans(items[..i]) + items[i].span
  {
    if i == 0 {
      assert items[..1][1..] == [];
    } else {
      SpansAppend(items[1..], i - 1);
      assert items[..i + 1][1..] == items[1..][..i] && items[..i][1..] == items[1..][..i - 1];
    }
  }

  lemma HeldAppend(items: seq<Item>, i: nat)
    requires i < |items|
    ensures HeldBytes(items[..i + 1]) == HeldBytes(items[..i]) + Held(items[i].reservation)
  {
    assert items[..i + 1] == items[..i] + [items[i]];
    HeldConcat(items[..i], [items[i]]);
    assert [items[i]][1..] == [];
  }

  lemma NotedPrepend(items: seq<Item>, i: nat, noted: Ssrc)
    requires 0 < i <= |items|
    ensures NotedSsrc(items[i - 1..], noted) ==
      if items[i - 1].ssrc != 0 then items[i - 1].ssrc else NotedSsrc(items[i..], noted)
  {
    assert items[i - 1..][1..] == items[i..];
  }

  lemma HeadFrameStep(items: seq<Item>, ready: nat, h: nat)
    requires h < ready <= |items|
    ensures HeadFrame(items[h..], ready - h) ==
      if items[h].frameEnd then 1 else 1 + HeadFrame(items[h + 1..], ready - h - 1)
  {
    assert items[h..][1..] == items[h + 1..];
  }

  const BLANK := Item(0, 0, 0, 0, 0, false, false, NO_RESERVATION)

  /** A ring of 512 entries. */
  class Ring {
    const entries: array<Item>
    var head: nat
    var tail: nat
    var count: nat

    ghost predicate Valid()
      reads this
    {
      entries.Length == CAPACITY && head < CAPACITY && count <= CAPACITY && tail == Slot(head, count)
    }

    ghost function Items(): (items: seq<Item>)
      requires Valid()
      reads this, entries
      ensures |items| == count
    {
      Window(entries[..], head, count)
    }

    constructor ()
      ensures Valid() && Items() == [] && fresh(entries)
    {
      entries := new Item[CAPACITY](_ => BLANK);
      head, tail, count := 0, 0, 0;
    }

    method Append(item: Item)
      requires Valid() && count < CAPACITY
      modifies this, entries
      ensures Valid() && Items() == old(Items()) + [item]
    {
      hide Window;
      WindowPush(entries[..], head, count, item);
      entries[tail] := item;
      tail := (tail + 1) % CAPACITY;
      count := count + 1;
      assert entries[..] == old(entries[..])[old(tail) := item];
    }

    method First() returns (item: Item)
      requires Valid() && count > 0
      ensures item == Items()[0]
    {
      item := entries[head];
    }

    /** Steps over the first entry. */
    method RemoveFirst()
      requires Valid() && count > 0
      modifies this, entries
      ensures Valid() && Items() == old(Items())[1..]
    {
      hide Window;
      WindowDrop(entries[..], head, count, BLANK);
      entries[head] := BLANK;
      assert entries[..] == old(entries[..])[head := BLANK];
      head := (head + 1) % CAPACITY;
      count := count - 1;
    }

    method Last() returns (item: Item)
      requires Valid() && count > 0
      ensures item == Items()[count - 1]
    {
      item := entries[if tail == 0 then CAPACITY - 1 else tail - 1];
    }

    /** Steps the tail back over the last entry. */
    method RemoveLast()
      requires Valid() && count > 0
      modifies this, entries
      ensures Valid() && Items() == old(Items())[..old(count) - 1]
    {
      hide Window;
      WindowShrink(entries[..], head, count, BLANK);
      tail := if tail == 0 then CAPACITY - 1 else tail - 1;
      entries[tail] := BLANK;
      count := count - 1;
      assert entries[..] == old(entries[..])[tail := BLANK];
    }

    method Get(i: nat) returns (item: Item)
      requires Valid() && i < count
      ensures item == Items()[i]
    {
      item := entries[(head + i) % CAPACITY];
    }

    method Set(i: nat, item: Item)
      requires Valid() && i < count
      modifies entries
      ensures Valid() && Items() == old(Items())[i := item]
    {
      hide Window;
      WindowSet(entries[..], head, count, i, item);
      SlotIsModular(head, i);
      entries[(head + i) % CAPACITY] := item;
      assert entries[..] == old(entries[..])[Slot(head, i) := item];
    }

    /** An empty ring starts over at the first place. */
    method Reset()
      requires Valid()
      modifies this
      ensures Valid() && Items() == old(Items())
    {
      if count == 0 { head, tail := 0, 0; }
    }
  }

  /** The frame being admitted. */
  datatype InputFrame = InputFrame(active: bool, drop: bool, key: bool, timestamp: nat, base: int, open: nat)

  /** The pacer after the reservations of packets that left the queue were cancelled. */
  function Freed(b: Bucket, before: seq<Item>, after: seq<Item>): Bucket {
    b.(reserved := b.reserved - (HeldBytes(before) - HeldBytes(after)))
  }

  lemma FreedTwice(b: Bucket, x: seq<Item>, y: seq<Item>, z: seq<Item>)
    ensures Freed(Freed(b, x, y), y, z) == Freed(b, x, z)
  {
  }

  lemma FreedOne(b: Bucket, items: seq<Item>)
    requires items != []
    ensures Cancel(b, items[0].reservation) == Freed(b, items, items[1..])
    ensures var n := |items| - 1; Cancel(b, items[n].reservation) == Freed(b, items, items[..n])
  {
    var n := |items| - 1;
    assert items[..n + 1] == items;
    HeldAppend(items, n);
  }

  /** What happens to a packet at the head of the queue when it is drained. */
  datatype Outcome = Stale | Blocked | Accepted

  /** The drain loop: stale packets are skipped, others wait for their release time. */
  function Rounds(q: Queue, b: Bucket, limit: nat, now: int, outcomes: seq<Outcome>): (Queue, Bucket, seq<nat>)
    decreases limit
  {
    if q.ready == 0 || q.items == [] || limit == 0 || outcomes == [] then (q, b, [])
    else
      var item, rest := q.items[0], Emptied(Pop(q));
      match outcomes[0]
      case Stale => Rounds(rest, Cancel(b, item.reservation), limit - 1, now, outcomes[1..])
      case Blocked => (q, b, [])
      case Accepted =>
        if item.release > now then (q, b, [])
        else
          var (q', b', more) := Rounds(rest, Commit(b, item.reservation), limit - 1, now, outcomes[1..]);
          (q', b', [item.packet] + more)
  }

  function Prepend(sent: seq<nat>, r: (Queue, Bucket, seq<nat>)): (Queue, Bucket, seq<nat>) { (r.0, r.1, sent + r.2) }

  /** One round of the drain loop, in the order the source runs it. */
  lemma RoundsStep(q: Queue, b: Bucket, limit: nat, now: int, outcomes: seq<Outcome>)
    requires 0 < q.ready <= |q.items| && limit > 0 && outcomes != [] && !outcomes[0].Blocked?
    ensures Emptied(q) == q
    ensures var r := q.items[0].reservation; var rest := Emptied(Pop(q));
      Rounds(q, b, limit, now, outcomes) ==
        if outcomes[0].Stale? then Prepend([], Rounds(rest, Cancel(b, r), limit - 1, now, outcomes[1..]))
        else if q.items[0].release > now then (q, b, [])
        else Prepend([q.items[0].packet], Rounds(rest, Commit(b, r), limit - 1, now, outcomes[1..]))
  {
    if outcomes[0].Stale? {
      PrependNothing(Rounds(Emptied(Pop(q)), Cancel(b, q.items[0].reservation), limit - 1, now, outcomes[1..]));
    }
  }

  lemma PrependNothing(r: (Queue, Bucket, seq<nat>))
    ensures Prepend([], r) == r
  {
    assert [] + r.2 == r.2;
  }

  lemma PrependTwice(x: seq<nat>, y: seq<nat>, r: (Queue, Bucket, seq<nat>))
    ensures Prepend(x, Prepend(y, r)) == Prepend(x + y, r)
  {
    assert x + (y + r.2) == (x + y) + r.2;
  }

  /** Where the drain loop stops. */
  lemma RoundsStop(q: Queue, b: Bucket, limit: nat, now: int, outcomes: seq<Outcome>)
    requires q.ready == 0 || q.items == [] || limit == 0 || outcomes == [] || outcomes[0].Blocked?
    ensures Rounds(q, b, limit, now, outcomes) == (q, b, [])
  {
  }

  class SendQueue {
    const ring: Ring
    const pacer: Pacer
    var ready: nat
    var readyFrames: nat
    var nextRelease: int
    var frame: InputFrame
    var motion: nat
    var rolledSsrc: Ssrc
    var rolledCount: nat

    ghost predicate Valid()
      reads this, ring
    {
      ring.Valid() && ready + frame.open <= ring.count
    }

    ghost function View(): Queue
      requires Valid()
      reads this, ring, ring.entries
    {
      Queue(ring.Items(), ready, readyFrames, nextRelease, frame.active, frame.drop, frame.key, frame.timestamp,
            frame.base, frame.open,
            motion, rolledSsrc, rolledCount)
    }

    constructor (pacer: Pacer)
      ensures Valid() && View() == NEW_QUEUE && this.pacer == pacer && fresh(ring) && fresh(ring.entries)
    {
      this.pacer := pacer;
      ring := new Ring();
      ready, readyFrames, nextRelease, motion, rolledSsrc, rolledCount := 0, 0, 0, 0, 0, 0;
      frame := InputFrame(false, false, false, 0, 0, 0);
    }

    method Delay(now: int) returns (d: int)
      requires Valid()
      ensures d == ProjectedDelay(View(), now)
    {
      if ring.count == 0 { return 0; }
      var serialization := if nextRelease > now then nextRelease - now else 0;
      var scans := (ready + DRAIN_PER_SCAN - 1) / DRAIN_PER_SCAN;
      var scanDelay := scans * SCAN_INTERVAL_US;
      d := if serialization > scanDelay then serialization else scanDelay;
    }

    method FinishInputFrame()
      requires Valid()
      modifies this, ring.entries
      ensures Valid() && View() == FinishFrame(old(View()))
    {
      hide Window;
      if !frame.active { return; }
      if frame.open > 0 {
        var last := ring.Last();
        ring.Set(ring.count - 1, last.(frameEnd := true));
        readyFrames := readyFrames + 1;
      }
      ready := ready + frame.open;
      frame := frame.(open := 0, active := false, drop := false, key := false);
    }

    method RejectInputFrame()
      requires Valid()
      modifies this`frame
      ensures Valid() && View() == RejectFrame(old(View()))
    {
      if frame.active { frame := frame.(drop := true); }
    }

    /** Takes the last packet off the ring, cancels its reservation and notes its stream. */
    method CancelLast()
      requires ring.Valid() && ring.count > 0
      modifies this`rolledSsrc, ring, ring.entries, pacer`reserved
      ensures ring.Valid() && ring.Items() == old(ring.Items())[..old(ring.count) - 1]
      ensures var last := old(ring.Items())[old(ring.count) - 1];
        rolledSsrc == if last.ssrc != 0 then last.ssrc else old(rolledSsrc)
      ensures pacer.State() == Freed(old(pacer.State()), old(ring.Items()), ring.Items())
    {
      hide Window, HeldBytes;
      var e := ring.Last();
      if e.ssrc != 0 { rolledSsrc := e.ssrc; }
      FreedOne(pacer.State(), ring.Items());
      var _ := pacer.CancelReservation(e.reservation);
      ring.RemoveLast();
    }

    /** Takes the last `n` packets off the ring and cancels their reservations. */
    method CancelTail(n: nat)
      requires Valid() && ready + n <= ring.count
      modifies this`rolledSsrc, ring, ring.entries, pacer`reserved
      ensures ring.Valid() && ring.Items() == old(ring.Items())[..old(ring.count) - n]
      ensures rolledSsrc == NotedSsrc(old(ring.Items())[old(ring.count) - n..], old(rolledSsrc))
      ensures pacer.State() == Freed(old(pacer.State()), old(ring.Items()), ring.Items())
    {
      hide Window, NotedSsrc, Freed;
      ghost var items, noted, b := ring.Items(), rolledSsrc, pacer.State();
      ghost var m := |items|;
      assert items[..m] == items && items[m..] == [];
      NothingNoted(noted);
      FreedNone(b, items);
      for i := 0 to n
        invariant ring.Valid() && ring.count == m - i && ring.Items() == items[..m - i]
        invariant rolledSsrc == NotedSsrc(items[m - i..], noted)
        invariant pacer.State() == Freed(b, items, items[..m - i])
      {
        NotedPrepend(items, m - i, noted);
        assert items[..m - i][..m - i - 1] == items[..m - i - 1];
        FreedTwice(b, items, items[..m - i], items[..m - i - 1]);
        CancelLast();
      }
    }

    lemma NothingNoted(noted: Ssrc)
      ensures NotedSsrc([], noted) == noted
    {
    }

    /** Discards the packets of the open frame. */
    method RollbackInputFrame()
      requires Valid()
      modifies this, ring, ring.entries, pacer`reserved
      ensures Valid() && View() == RollbackFrame(old(View()))
      ensures pacer.State() == Freed(old(pacer.State()), old(ring.Items()), ring.Items())
    {
      hide NotedSsrc, HeldBytes;
      if frame.open == 0 || frame.open > ring.count { return; }
      rolledCount := frame.open % 0x1_0000;
      CancelTail(frame.open);
      nextRelease := frame.base;
      frame := frame.(open := 0, key := false);
      if ring.count == 0 {
        ring.Reset();
        nextRelease, readyFrames := 0, 0;
      }
    }

    /** Starts a frame; a late one that is not a keyframe is dropped from its first packet on. */
    method OpenInputFrame(ts: nat, keyframe: bool, dropOnDelay: bool, maxDelay: int, now: int)
      requires Valid()
      modifies this
      ensures Valid() && View() == OpenFrame(old(View()), ts, keyframe, dropOnDelay, maxDelay, now)
    {
      hide Window, ProjectedDelay;
      ghost var q := View();
      if readyFrames > 3 { motion := motion + 1; } else if motion > 0 { motion := motion - 1; }
      var limit := if motion > 0 then MOTION_MAX_DELAY_US else maxDelay;
      var delay := Delay(now);
      DelayIgnores(q, motion, now);
      frame := InputFrame(true, dropOnDelay && !keyframe && delay >= limit, keyframe, ts, nextRelease, 0);
    }

    /** Takes note of a packet of a frame and says whether it may be queued. */
    method AdmitFramePacket(ts: nat, marker: bool, keyframe: bool, dropOnDelay: bool, maxDelay: int, now: int)
      returns (admitted: bool)
      requires Valid()
      modifies this, ring, ring.entries, pacer`reserved
      ensures Valid() && (View(), admitted) == Admit(old(View()), ts, marker, keyframe, dropOnDelay, maxDelay, now)
      ensures pacer.State() == Freed(old(pacer.State()), old(ring.Items()), ring.Items())
    {
      hide Window, RollbackFrame, OpenFrame, HeldBytes;
      if !frame.active || frame.timestamp != ts {
        if frame.active && frame.timestamp != ts {
          RollbackInputFrame();
          frame := frame.(active := false, drop := false, key := false);
        }
        assert View() == Abandoned(old(View()), ts);
        OpenInputFrame(ts, keyframe, dropOnDelay, maxDelay, now);
      }
      if keyframe { frame := frame.(key := true); }
      admitted := !frame.drop;
      if marker && !admitted { frame := frame.(active := false, drop := false, key := false); }
    }

    lemma DelayIgnores(q: Queue, motion: nat, now: int)
      ensures ProjectedDelay(q.(motion := motion), now) == ProjectedDelay(q, now)
    {
    }

    /** Queues a packet and takes over its reservation. */
    method EnqueuePacket(packet: nat, seqNo: nat, ssrc: Ssrc, keyframe: bool, len: nat, rate: nat, r: Reservation,
                         now: int) returns (ok: bool)
      requires Valid()
      modifies this, ring, ring.entries
      ensures Valid() && ok == Enqueue(old(View()), packet, seqNo, ssrc, keyframe, len, rate, r, now).Some?
      ensures View() ==
        if ok then Enqueue(old(View()), packet, seqNo, ssrc, keyframe, len, rate, r, now).value else old(View())
    {
      hide Window, Span;
      if !r.active || len == 0 || len > MAX_PAYLOAD { return false; }
      if ring.count >= CAPACITY { return false; }
      var span := Span(len, rate, keyframe);
      var at := if nextRelease > now then nextRelease else now;
      ring.Append(Item(packet, seqNo, ssrc, at, span, false, keyframe, r));
      nextRelease := at + span;
      if frame.active { frame := frame.(open := frame.open + 1); }
      ok := true;
    }

    /** Gives the queued packets new release times from now on. */
    method RebaseItems(now: int) returns (base: int)
      requires Valid()
      modifies ring.entries
      ensures Valid() && ring.Items() == Rebased(old(ring.Items()), now) && base == now + Spans(old(ring.Items()))
    {
      hide Window, Rebased, Spans;
      ghost var items := ring.Items();
      RebasedLength(items, now);
      NoSpan(items);
      base := now;
      for i := 0 to ring.count
        invariant Valid() && |ring.Items()| == |items|
        invariant base == now + Spans(items[..i])
        invariant forall j | 0 <= j < i :: ring.Items()[j] == Rebased(items, now)[j]
        invariant forall j | i <= j < |items| :: ring.Items()[j] == items[j]
      {
        var e := ring.Get(i);
        RebasedAt(items, now, i);
        SpansAppend(items, i);
        ring.Set(i, e.(release := base));
        base := base + e.span;
      }
      assert items[..|items|] == items;
    }

    lemma NoSpan(items: seq<Item>)
      ensures Spans(items[..0]) == 0
    {
    }

    method RebaseBacklog(now: int)
      requires Valid()
      modifies this`nextRelease, this`frame, ring.entries
      ensures Valid() && View() == Rebase(old(View()), now)
    {
      hide Window, Rebased, Spans;
      ghost var items := ring.Items();
      RebasedIs(items, now);
      var end := RebaseItems(now);
      nextRelease := if ring.count > 0 then end else 0;
      if frame.active {
        var unpublished := 0;
        NoSpan(items);
        for i := 0 to ready
          invariant Valid() && frame == old(frame) && ring.Items() == Rebased(items, now)
          invariant nextRelease == if ring.count > 0 then end else 0
          invariant unpublished == Spans(items[..i])
        {
          var e := ring.Get(i);
          SpansAppend(items, i);
          unpublished := unpublished + e.span;
        }
        frame := frame.(base := now + unpublished);
      }
    }

    /** Takes the head packet off the ring and cancels its reservation. */
    method CancelHead() returns (frameEnd: bool)
      requires Valid() && ready > 0
      modifies this`ready, ring, ring.entries, pacer`reserved
      ensures Valid() && ring.Items() == old(ring.Items())[1..] && ready == old(ready) - 1
      ensures frameEnd == old(ring.Items())[0].frameEnd
      ensures pacer.State() == Freed(old(pacer.State()), old(ring.Items()), ring.Items())
    {
      hide Window, HeldBytes;
      var e := ring.First();
      frameEnd := e.frameEnd;
      FreedOne(pacer.State(), ring.Items());
      var _ := pacer.CancelReservation(e.reservation);
      ring.RemoveFirst();
      ready := ready - 1;
    }

    /** Drops the frame at the head and cancels its reservations. */
    method DropHead() returns (frameEnd: bool)
      requires Valid() && ready > 0
      modifies this`ready, ring, ring.entries, pacer`reserved
      ensures var n := HeadFrame(old(ring.Items()), old(ready));
        && Valid() && ring.Items() == old(ring.Items())[n..] && ready == old(ready) - n
        && frameEnd == old(ring.Items())[n - 1].frameEnd
      ensures pacer.State() == Freed(old(pacer.State()), old(ring.Items()), ring.Items())
    {
      hide Window, Freed, HeadFrame;
      ghost var items, b, total := ring.Items(), pacer.State(), ready;
      ghost var h := 0;
      frameEnd := false;
      assert items[0..] == items;
      FreedNone(b, items);
      while ready > 0 && !frameEnd
        invariant Valid() && h + ready == total && h + |ring.Items()| == |items| && ring.Items() == items[h..]
        invariant pacer.State() == Freed(b, items, items[h..])
        invariant h > 0 ==> frameEnd == items[h - 1].frameEnd
        invariant h == 0 ==> !frameEnd
        invariant HeadFrame(items, total) == if frameEnd then h else h + HeadFrame(items[h..], ready)
        decreases ready
      {
        HeadFrameStep(items, total, h);
        assert items[h..][1..] == items[h + 1..];
        FreedTwice(b, items, items[h..], items[h + 1..]);
        frameEnd := CancelHead();
        h := h + 1;
      }
    }

    lemma FreedNone(b: Bucket, items: seq<Item>)
      ensures Freed(b, items, items) == b
    {
    }

    /** One round of trimming: the head frame goes, the rest is respaced. */
    method DropAndRebase(now: int)
      requires Valid() && ready > 0 && !frame.active
      modifies this, ring, ring.entries, pacer`reserved
      ensures Valid() && View() == DropHeadFrame(old(View()), now) && ready < old(ready)
      ensures pacer.State() == Freed(old(pacer.State()), old(ring.Items()), ring.Items())
    {
      hide Window, HeldBytes, HeadFrame, Rebased, Spans;
      var ended := DropHead();
      if ended && readyFrames > 0 { readyFrames := readyFrames - 1; }
      ghost var cut := View();
      RebaseBacklog(now);
      RebaseHolds(cut, now);
    }

    /** Drops whole frames at the head until the projected delay is under the limit, a keyframe
        is at the head, or nothing is ready. */
    method TrimQueue(maxDelay: int, now: int)
      requires Valid() && !frame.active
      modifies this, ring, ring.entries, pacer`reserved
      ensures Valid() && View() == Trim(old(View()), maxDelay, now)
      ensures pacer.State() == Freed(old(pacer.State()), old(ring.Items()), ring.Items())
    {
      hide Window, HeldBytes, HeadFrame, DropHeadFrame, ProjectedDelay;
      ghost var q, b, items := View(), pacer.State(), ring.Items();
      while true
        invariant Valid() && !frame.active && Trim(View(), maxDelay, now) == Trim(q, maxDelay, now)
        invariant pacer.State() == Freed(b, items, ring.Items())
        decreases ready
      {
        if ready == 0 { break; }
        var delay := Delay(now);
        if delay < maxDelay { break; }
        var first := ring.First();
        if first.keyframe { break; }
        ghost var kept := ring.Items();
        assert Trims(View(), maxDelay, now);
        DropFrameKeeps(View(), now);
        DropAndRebase(now);
        FreedTwice(b, items, kept, ring.Items());
      }
      assert !Trims(View(), maxDelay, now);
    }

    lemma DropFrameKeeps(q: Queue, now: int)
      requires 0 < q.ready <= |q.items|
      ensures DropHeadFrame(q, now).active == q.active
    {
    }

    method BoundQueue(maxDelay: int, now: int) returns (under: bool)
      requires Valid()
      modifies this, ring, ring.entries, pacer`reserved
      ensures Valid() && (View(), under) == BoundBacklog(old(View()), maxDelay, now)
      ensures pacer.State() == Freed(old(pacer.State()), old(ring.Items()), ring.Items())
    {
      hide Window, HeldBytes, Trim, ProjectedDelay;
      if maxDelay <= 0 || frame.active { return false; }
      TrimQueue(maxDelay, now);
      if ring.count == 0 {
        ring.Reset();
        readyFrames := 0;
      }
      var delay := Delay(now);
      under := delay < maxDelay;
    }

    lemma RebaseHolds(q: Queue, now: int)
      requires q.ready <= |q.items|
      ensures HeldBytes(Rebase(q, now).items) == HeldBytes(q.items)
    {
      RebasedIs(q.items, now);
      SameHeld(Rebased(q.items, now), q.items);
    }

    /** Takes the head packet off the ring. */
    method PopEntry()
      requires Valid() && ready > 0
      modifies this, ring, ring.entries
      ensures Valid() && View() == Pop(old(View()))
    {
      hide Window;
      var e := ring.First();
      if e.frameEnd && readyFrames > 0 { readyFrames := readyFrames - 1; }
      ring.RemoveFirst();
      ready := ready - 1;
    }

    /** Settles the head packet: a stale one is dropped, another is sent unless it is too early. */
    method DrainEntry(now: int, outcome: Outcome) returns (done: bool, sent: seq<nat>)
      requires Valid() && ready > 0 && !outcome.Blocked?
      modifies this, ring, ring.entries, pacer`reserved, pacer`balance
      ensures Valid() && done == (outcome.Stale? || old(ring.Items())[0].release <= now)
      ensures View() == if done then Pop(old(View())) else old(View())
      ensures var r := old(ring.Items())[0].reservation;
        pacer.State() ==
          if !done then old(pacer.State())
          else if outcome.Stale? then Cancel(old(pacer.State()), r) else Commit(old(pacer.State()), r)
      ensures sent == if done && outcome.Accepted? then [old(ring.Items())[0].packet] else []
    {
      hide Window, Pop;
      sent := [];
      var e := ring.First();
      if outcome.Accepted? {
        if e.release > now { return false, []; }
        var _ := pacer.CommitReservation(e.reservation);
        sent := [e.packet];
      } else {
        var _ := pacer.CancelReservation(e.reservation);
      }
      PopEntry();
      done := true;
    }

    /** Sends ready packets whose time has come, at most `limit` of them, in queue order.  The
        outcomes say what happens to each head in turn; the sequence ends when sending blocks. */
    method DrainQueue(limit: nat, now: int, outcomes: seq<Outcome>) returns (sent: seq<nat>, remaining: nat)
      requires Valid()
      modifies this, ring, ring.entries, pacer`reserved, pacer`balance
      ensures Valid() && remaining <= limit
      ensures (View(), pacer.State(), sent) ==
        if old(ring.count) == 0 then (old(View()), old(pacer.State()), [])
        else Rounds(old(View()), old(pacer.State()), limit, now, outcomes)
    {
      hide Window, Pop, Commit, Cancel, Rounds, Prepend;
      sent := [];
      remaining := limit;
      if ring.count == 0 { return; }
      ghost var all := Rounds(View(), pacer.State(), limit, now, outcomes);
      PrependNothing(all);
      assert outcomes[0..] == outcomes;
      ghost var left := outcomes;
      while ready > 0 && remaining > 0 && limit - remaining < |outcomes| && !outcomes[limit - remaining].Blocked?
        invariant Valid() && remaining <= limit && limit - remaining <= |outcomes|
        invariant left == outcomes[limit - remaining..]
        invariant all == Prepend(sent, Rounds(Emptied(View()), pacer.State(), remaining, now, left))
        decreases remaining
      {
        RoundsStep(View(), pacer.State(), remaining, now, left);
        var done, out := DrainEntry(now, outcomes[limit - remaining]);
        if !done {
          RoundsNone(View(), pacer.State(), sent);
          return;
        }
        remaining := remaining - 1;
        left := left[1..];
        PrependTwice(sent, out, Rounds(Emptied(View()), pacer.State(), remaining, now, left));
        sent := sent + out;
      }
      RoundsStop(Emptied(View()), pacer.State(), remaining, now, left);
      RoundsNone(Emptied(View()), pacer.State(), sent);
      if ring.count == 0 {
        ring.Reset();
        nextRelease, readyFrames := 0, 0;
      }
    }

    lemma RoundsNone(q: Queue, b: Bucket, sent: seq<nat>)
      ensures Prepend(sent, (q, b, [])) == (q, b, sent)
    {
      assert sent + [] == sent;
    }
  }
}

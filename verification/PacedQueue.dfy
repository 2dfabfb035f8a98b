/**
 The paced send queue (src/pipeline/paced_send.c) as a value: the queued packets in order, the
 closed ("ready") part in front, the packets of the frame still being admitted behind it.
 `PacedSendQueue` runs the source's ring buffer against these functions.
 */
module PacedQueue {
  import opened Wrappers
  import opened Arithmetic
  import opened Pacing
  import opened SeqTranslation

  const CAPACITY: nat := 512
  const MAX_PAYLOAD: nat := 2048
  const DRAIN_PER_SCAN: nat := 4
  const SCAN_INTERVAL_US := 2_000
  const MIN_BPS: nat := 2_000_000
  const KEYFRAME_MIN_BPS: nat := 5_000_000
  const MOTION_MAX_DELAY_US := 250_000

  /** One queued packet; `packet` stands for its bytes and destination. */
  datatype Item = Item(packet: nat, seqNo: nat, ssrc: Ssrc, release: int, span: nat, frameEnd: bool, keyframe: bool,
                       reservation: Reservation)

  datatype Queue = Queue(
    items: seq<Item>, ready: nat, readyFrames: nat, nextRelease: int,
    active: bool, drop: bool, key: bool, timestamp: nat, base: int, open: nat, motion: nat,
    rolledSsrc: Ssrc, rolledCount: nat)

  // ---------------------------------------------------------------------- operations

  function ProjectedDelay(q: Queue, now: int): (d: int)
    ensures d >= 0
  {
    if q.items == [] then 0
    else Max(Max(q.nextRelease - now, 0), (q.ready + DRAIN_PER_SCAN - 1) / DRAIN_PER_SCAN * SCAN_INTERVAL_US)
  }

  /** The SSRC noted by a rollback, which visits the dropped packets last to first. */
  function NotedSsrc(dropped: seq<Item>, noted: Ssrc): Ssrc {
    if dropped == [] then noted
    else if dropped[0].ssrc != 0 then dropped[0].ssrc
    else NotedSsrc(dropped[1..], noted)
  }

  /** Discards the packets of the open frame. */
  function RollbackFrame(q: Queue): Queue {
    if q.open == 0 || q.open > |q.items| then q
    else
      var kept := q.items[..|q.items| - q.open];
      q.(items := kept, open := 0, key := false, rolledCount := q.open % 0x1_0000,
         rolledSsrc := NotedSsrc(q.items[|kept|..], q.rolledSsrc),
         nextRelease := if kept == [] then 0 else q.base, readyFrames := if kept == [] then 0 else q.readyFrames)
  }

  function RejectFrame(q: Queue): Queue { if q.active then q.(drop := true) else q }

  /** Closes the open frame: its packets become ready. */
  function FinishFrame(q: Queue): Queue {
    if !q.active then q
    else
      var n := |q.items|;
      var closed := q.(ready := q.ready + q.open, open := 0, active := false, drop := false, key := false);
      if q.open > 0 && n > 0 then
        closed.(items := q.items[n - 1 := q.items[n - 1].(frameEnd := true)], readyFrames := q.readyFrames + 1)
      else closed
  }

  predicate StartsFrame(q: Queue, ts: nat) { !q.active || q.timestamp != ts }

  /** The queue after an unfinished frame with another timestamp was rolled back. */
  function Abandoned(q: Queue, ts: nat): Queue {
    if q.active && q.timestamp != ts then RollbackFrame(q).(active := false, drop := false, key := false) else q
  }

  function OpenFrame(q: Queue, ts: nat, keyframe: bool, dropOnDelay: bool, maxDelay: int, now: int): Queue {
    var motion := if q.readyFrames > 3 then q.motion + 1 else if q.motion > 0 then q.motion - 1 else 0;
    var limit := if motion > 0 then MOTION_MAX_DELAY_US else maxDelay;
    q.(timestamp := ts, base := q.nextRelease, open := 0, active := true, key := keyframe, motion := motion,
       drop := dropOnDelay && !keyframe && ProjectedDelay(q, now) >= limit)
  }

  /** Takes note of a packet of a frame; the answer says whether it may be queued. */
  function Admit(q: Queue, ts: nat, marker: bool, keyframe: bool, dropOnDelay: bool, maxDelay: int,
                 now: int): (Queue, bool) {
    var begun :=
      if StartsFrame(q, ts) then OpenFrame(Abandoned(q, ts), ts, keyframe, dropOnDelay, maxDelay, now) else q;
    var noted := if keyframe then begun.(key := true) else begun;
    if !noted.drop then (noted, true)
    else if marker then (noted.(active := false, drop := false, key := false), false)
    else (noted, false)
  }

  function Span(len: nat, rate: nat, keyframe: bool): nat {
    var floor := if keyframe then KEYFRAME_MIN_BPS else MIN_BPS;
    var r := if rate < floor then floor else rate;
    (len * 8 * 1_000_000 + r - 1) / r
  }

  /** Queues a packet behind the others; its release time is not before theirs. */
  function Enqueue(q: Queue, packet: nat, seqNo: nat, ssrc: Ssrc, keyframe: bool, len: nat, rate: nat, r: Reservation,
                   now: int): Option<Queue> {
    if !r.active || len == 0 || len > MAX_PAYLOAD || |q.items| >= CAPACITY then None
    else
      var at := Max(q.nextRelease, now);
      var span := Span(len, rate, keyframe);
      Some(q.(items := q.items + [Item(packet, seqNo, ssrc, at, span, false, keyframe, r)], nextRelease := at + span,
              open := if q.active then q.open + 1 else q.open))
  }

  function Emptied(q: Queue): Queue { if q.items == [] then q.(nextRelease := 0, readyFrames := 0) else q }

  /** Takes the packet at the head out of the queue. */
  function Pop(q: Queue): Queue
    requires q.items != [] && q.ready > 0
  {
    q.(items := q.items[1..], ready := q.ready - 1,
       readyFrames := if q.items[0].frameEnd && q.readyFrames > 0 then q.readyFrames - 1 else q.readyFrames)
  }

  // ------------------------------------------------------------------- backlog bound

  function Spans(items: seq<Item>): nat { if items == [] then 0 else items[0].span + Spans(items[1..]) }

  function Rebased(items: seq<Item>, base: int): seq<Item> {
    if items == [] then [] else [items[0].(release := base)] + Rebased(items[1..], base + items[0].span)
  }

  /** Respaces the queued packets from now on. */
  function Rebase(q: Queue, now: int): Queue
    requires q.ready <= |q.items|
  {
    q.(items := Rebased(q.items, now), nextRelease := if q.items == [] then 0 else now + Spans(q.items),
       base := if q.active then now + Spans(q.items[..q.ready]) else q.base)
  }

  /** Packets of the frame at the head: up to its end, or all that are ready. */
  function HeadFrame(items: seq<Item>, ready: nat): (n: nat)
    requires ready <= |items|
    ensures n <= ready && (n == 0 <==> ready == 0)
  {
    if ready == 0 then 0 else if items[0].frameEnd then 1 else 1 + HeadFrame(items[1..], ready - 1)
  }

  function DropHeadFrame(q: Queue, now: int): Queue
    requires 0 < q.ready <= |q.items|
  {
    var n := HeadFrame(q.items, q.ready);
    var frames := if q.items[n - 1].frameEnd && q.readyFrames > 0 then q.readyFrames - 1 else q.readyFrames;
    var cut := q.(items := q.items[n..], ready := q.ready - n, readyFrames := frames);
    Rebase(cut, now)
  }

  predicate Trims(q: Queue, maxDelay: int, now: int)
    requires q.ready <= |q.items|
  {
    q.ready > 0 && ProjectedDelay(q, now) >= maxDelay && !q.items[0].keyframe
  }

  lemma {:induction false} RebasedLength(items: seq<Item>, base: int)
    ensures |Rebased(items, base)| == |items|
  {
    if items != [] { RebasedLength(items[1..], base + items[0].span); }
  }

  function Trim(q: Queue, maxDelay: int, now: int): Queue
    requires q.ready <= |q.items|
    decreases q.ready
  {
    if !Trims(q, maxDelay, now) then q
    else
      RebasedLength(q.items[HeadFrame(q.items, q.ready)..], now);
      Trim(DropHeadFrame(q, now), maxDelay, now)
  }

  function BoundBacklog(q: Queue, maxDelay: int, now: int): (Queue, bool)
    requires q.ready <= |q.items|
  {
    if maxDelay <= 0 || q.active then (q, false)
    else
      var t := Trim(q, maxDelay, now);
      var left := if t.items == [] then t.(readyFrames := 0) else t;
      (left, ProjectedDelay(left, now) < maxDelay)
  }

  // ----------------------------------------------------------------------- invariant

  function Ends(items: seq<Item>): nat
  {
    if items == [] then 0 else (if items[0].frameEnd then 1 else 0) + Ends(items[1..])
  }

  /** A packet is released no earlier than its predecessor's span is over. */
  ghost predicate Spaced(items: seq<Item>, until: int) {
    && (forall i | 0 <= i < |items| - 1 :: items[i].release + items[i].span <= items[i + 1].release)
    && (items != [] ==> Last(items).release + Last(items).span <= until)
  }

  function Last(items: seq<Item>): Item
    requires items != []
  {
    items[|items| - 1]
  }

  /** The ready part is made of whole frames, everything behind it belongs to the open frame. */
  ghost predicate Closed(items: seq<Item>, ready: nat, frames: nat) {
    && ready <= |items| && (ready > 0 ==> items[ready - 1].frameEnd)
    && Ends(items[..ready]) == frames
    && (forall i | ready <= i < |items| :: !items[i].frameEnd)
  }

  ghost predicate AllHeld(items: seq<Item>) { forall i | 0 <= i < |items| :: items[i].reservation.active }

  /** The time to fall back to when the open frame is rolled back is after the ready part. */
  ghost predicate BaseOk(items: seq<Item>, ready: nat, base: int) {
    0 < ready <= |items| ==> items[ready - 1].release + items[ready - 1].span <= base
  }

  ghost predicate QueueInv(q: Queue) {
    && |q.items| == q.ready + q.open <= CAPACITY
    && (q.open > 0 ==> q.active)
    && Closed(q.items, q.ready, q.readyFrames) && AllHeld(q.items) && Spaced(q.items, q.nextRelease)
    && (q.active ==> BaseOk(q.items, q.ready, q.base))
  }

  const NEW_QUEUE := Queue([], 0, 0, 0, false, false, false, 0, 0, 0, 0, 0, 0)

  lemma {:induction false} EndsConcat(a: seq<Item>, b: seq<Item>)
    ensures Ends(a + b) == Ends(a) + Ends(b)
  {
    if a == [] {
      assert a + b == b;
    } else {
      assert (a + b)[1..] == a[1..] + b;
      EndsConcat(a[1..], b);
    }
  }

  lemma {:induction false} NoEnds(items: seq<Item>)
    requires forall i | 0 <= i < |items| :: !items[i].frameEnd
    ensures Ends(items) == 0
  {
    if items != [] { NoEnds(items[1..]); }
  }

  lemma {:induction false} SomeEnd(items: seq<Item>, i: nat)
    requires i < |items| && items[i].frameEnd
    ensures Ends(items) > 0
  {
    if i > 0 { SomeEnd(items[1..], i - 1); }
  }

  lemma ClosedPrefix(items: seq<Item>, ready: nat, frames: nat)
    requires Closed(items, ready, frames)
    ensures Closed(items[..ready], ready, frames) && (ready == 0 ==> frames == 0)
  {
    assert items[..ready][..ready] == items[..ready];
  }

  lemma SpacedPrefix(items: seq<Item>, until: int, n: nat)
    requires Spaced(items, until) && n <= |items|
    ensures 0 < n ==> Spaced(items[..n], items[n - 1].release + items[n - 1].span)
    ensures 0 < n ==> items[n - 1].release + items[n - 1].span <= until
    decreases |items| - n
  {
    if 0 < n < |items| { SpacedPrefix(items, until, n + 1); }
  }

  lemma SpacedUntil(items: seq<Item>, until: int, later: int)
    requires Spaced(items, until) && until <= later
    ensures Spaced(items, later)
  {
  }

  lemma SpacedEmpty(items: seq<Item>, until: int)
    requires items == []
    ensures Spaced(items, until)
  {
  }

  lemma RollbackKeeps(q: Queue)
    requires QueueInv(q)
    ensures QueueInv(RollbackFrame(q)) && RollbackFrame(q).items == q.items[..q.ready]
    ensures RollbackFrame(q).ready == q.ready
  {
    hide Closed, Spaced, Ends;
    assert q.open == 0 ==> q.items[..q.ready] == q.items;
    ClosedPrefix(q.items, q.ready, q.readyFrames);
    SpacedPrefix(q.items, q.nextRelease, q.ready);
    if q.open > 0 {
      if q.ready > 0 {
        SpacedUntil(q.items[..q.ready], q.items[q.ready - 1].release + q.items[q.ready - 1].span, q.base);
      }
      else { SpacedEmpty(q.items[..q.ready], 0); }
    }
  }

  lemma ClosingFrame(items: seq<Item>, ready: nat, frames: nat)
    requires Closed(items, ready, frames) && ready < |items|
    ensures var n := |items|; Closed(items[n - 1 := items[n - 1].(frameEnd := true)], n, frames + 1)
  {
    var n := |items|;
    var last := items[n - 1].(frameEnd := true);
    var closed := items[n - 1 := last];
    assert closed[..n] == items[..ready] + items[ready..n - 1] + [last];
    EndsConcat(items[..ready] + items[ready..n - 1], [last]);
    EndsConcat(items[..ready], items[ready..n - 1]);
    NoEnds(items[ready..n - 1]);
  }

  lemma FinishKeeps(q: Queue)
    requires QueueInv(q)
    ensures QueueInv(FinishFrame(q))
  {
    hide Closed, Ends;
    if q.active && q.open > 0 { ClosingFrame(q.items, q.ready, q.readyFrames); }
  }

  lemma AdmitKeeps(q: Queue, ts: nat, marker: bool, keyframe: bool, dropOnDelay: bool, maxDelay: int, now: int)
    requires QueueInv(q) && (q.drop ==> q.open == 0)
    ensures var (q', ok) := Admit(q, ts, marker, keyframe, dropOnDelay, maxDelay, now);
      && QueueInv(q') && (q'.drop ==> q'.open == 0) && (ok ==> q'.active && !q'.drop)
      && q'.items == (if q.active && q.timestamp != ts then q.items[..q.ready] else q.items) && q'.ready == q.ready
  {
    hide Closed, Ends, Spaced, RollbackFrame, ProjectedDelay;
    RollbackKeeps(q);
    var a := Abandoned(q, ts);
    if StartsFrame(q, ts) { SpacedPrefix(a.items, a.nextRelease, a.ready); }
  }

  lemma ClosedAppend(items: seq<Item>, ready: nat, frames: nat, item: Item)
    requires Closed(items, ready, frames) && !item.frameEnd
    ensures Closed(items + [item], ready, frames)
  {
    assert (items + [item])[..ready] == items[..ready];
  }

  lemma SpacedAppend(items: seq<Item>, until: int, item: Item)
    requires Spaced(items, until) && until <= item.release
    ensures Spaced(items + [item], item.release + item.span)
  {
  }

  lemma EnqueueKeeps(q: Queue, packet: nat, seqNo: nat, ssrc: Ssrc, keyframe: bool, len: nat, rate: nat,
                     r: Reservation, now: int)
    requires QueueInv(q) && q.active
    ensures var e := Enqueue(q, packet, seqNo, ssrc, keyframe, len, rate, r, now);
      && (e.Some? <==> r.active && 0 < len <= MAX_PAYLOAD && |q.items| < CAPACITY)
      && (e.Some? ==>
            && QueueInv(e.value) && e.value.items == q.items + [Last(e.value.items)]
            && Last(e.value.items).release >= now)
  {
    hide Span, Closed, Spaced;
    var e := Enqueue(q, packet, seqNo, ssrc, keyframe, len, rate, r, now);
    if e.Some? {
      var item := Last(e.value.items);
      ClosedAppend(q.items, q.ready, q.readyFrames, item);
      SpacedUntil(q.items, q.nextRelease, item.release);
      SpacedAppend(q.items, item.release, item);
    }
  }

  lemma ClosedTail(items: seq<Item>, ready: nat, frames: nat)
    requires Closed(items, ready, frames) && ready > 0
    ensures frames > 0
    ensures Closed(items[1..], ready - 1, if items[0].frameEnd then frames - 1 else frames)
  {
    var rest := items[1..];
    assert items[..ready] == [items[0]] + rest[..ready - 1];
    EndsConcat([items[0]], rest[..ready - 1]);
    assert Ends([items[0]]) == if items[0].frameEnd then 1 else 0;
    SomeEnd(items[..ready], ready - 1);
  }

  /** What leaves at the head is a ready packet. */
  lemma PopKeeps(q: Queue)
    requires QueueInv(q) && q.ready > 0
    ensures QueueInv(Pop(q)) && QueueInv(Emptied(Pop(q)))
  {
    hide Closed, Ends;
    ClosedTail(q.items, q.ready, q.readyFrames);
    var p := Pop(q);
    if p.items == [] { ClosedPrefix(p.items, p.ready, p.readyFrames); }
  }

  // ------------------------------------------------------- what trimming leaves behind

  lemma {:induction false} RebasedIs(items: seq<Item>, base: int)
    ensures var r := Rebased(items, base);
      && |r| == |items| && Spaced(r, base + Spans(items))
      && (forall i | 0 <= i < |items| :: r[i] == items[i].(release := r[i].release))
      && (items != [] ==> r[0].release == base)
  {
    if items != [] {
      RebasedIs(items[1..], base + items[0].span);
      var r, t := Rebased(items, base), Rebased(items[1..], base + items[0].span);
      assert r == [items[0].(release := base)] + t;
      forall i | 0 <= i < |items| ensures r[i] == items[i].(release := r[i].release) {
        if i > 0 { assert items[i] == items[1..][i - 1] && r[i] == t[i - 1]; }
      }
      forall i | 0 <= i < |r| - 1 ensures r[i].release + r[i].span <= r[i + 1].release {
        if i > 0 { assert r[i] == t[i - 1] && r[i + 1] == t[i]; }
      }
    }
  }

  /** Respacing touches nothing but release times. */
  lemma {:induction false} SameEnds(a: seq<Item>, b: seq<Item>)
    requires |a| == |b| && forall i | 0 <= i < |a| :: a[i].frameEnd == b[i].frameEnd
    ensures Ends(a) == Ends(b)
  {
    if a != [] { SameEnds(a[1..], b[1..]); }
  }

  /** The head frame ends at its first frame end. */
  lemma {:induction false} HeadFrameEnds(items: seq<Item>, ready: nat)
    requires 0 < ready <= |items| && items[ready - 1].frameEnd
    ensures var n := HeadFrame(items, ready); items[n - 1].frameEnd && Ends(items[..n]) == 1
  {
    if !items[0].frameEnd {
      HeadFrameEnds(items[1..], ready - 1);
      var n := HeadFrame(items, ready);
      assert items[..n][1..] == items[1..][..n - 1];
    } else {
      assert Ends(items[..1]) == 1;
    }
  }

  ghost predicate SameButRelease(a: seq<Item>, b: seq<Item>) {
    |a| == |b| && forall i | 0 <= i < |a| :: a[i] == b[i].(release := a[i].release)
  }

  lemma SameAsItself(items: seq<Item>)
    ensures SameButRelease(items, items[0..])
  {
  }

  lemma ClosedWithoutHead(items: seq<Item>, frames: nat)
    requires items != [] && Closed(items, |items|, frames)
    ensures var n := HeadFrame(items, |items|);
      items[n - 1].frameEnd && frames > 0 && Closed(items[n..], |items| - n, frames - 1)
  {
    hide Ends, HeadFrame;
    var n := HeadFrame(items, |items|);
    HeadFrameEnds(items, |items|);
    assert items[..|items|] == items == items[..n] + items[n..];
    EndsConcat(items[..n], items[n..]);
    assert items[n..][..|items| - n] == items[n..];
  }

  lemma ClosedRespaced(a: seq<Item>, b: seq<Item>, frames: nat)
    requires SameButRelease(a, b) && Closed(b, |b|, frames)
    ensures Closed(a, |a|, frames)
  {
    assert a[..|a|] == a && b[..|b|] == b;
    SameEnds(a, b);
  }

  lemma DropHeadKeeps(q: Queue, now: int)
    requires QueueInv(q) && q.ready > 0 && !q.active
    ensures var n := HeadFrame(q.items, q.ready);
      && QueueInv(DropHeadFrame(q, now)) && q.items[n - 1].frameEnd
      && SameButRelease(DropHeadFrame(q, now).items, q.items[n..])
      && DropHeadFrame(q, now).readyFrames == q.readyFrames - 1
  {
    hide Closed, Spaced, Ends, Spans, HeadFrame, Rebased;
    var n := HeadFrame(q.items, q.ready);
    ClosedWithoutHead(q.items, q.readyFrames);
    RebasedIs(q.items[n..], now);
    ClosedRespaced(Rebased(q.items[n..], now), q.items[n..], q.readyFrames - 1);
    if q.items[n..] == [] { SpacedEmpty(Rebased(q.items[n..], now), 0); }
  }

  /** Trimming drops whole frames from the front and respaces what is left. */
  ghost predicate DroppedFrames(q: Queue, t: Queue, n: nat) {
    && n <= q.ready <= |q.items| && SameButRelease(t.items, q.items[n..]) && t.ready == q.ready - n
    && (n > 0 ==> q.items[n - 1].frameEnd)
    && t.active == q.active && t.open == q.open && t.drop == q.drop
    && t.rolledCount == q.rolledCount && t.rolledSsrc == q.rolledSsrc
  }

  lemma DroppedMore(q: Queue, d: Queue, t: Queue, h: nat, m: nat)
    requires DroppedFrames(q, d, h) && DroppedFrames(d, t, m)
    ensures DroppedFrames(q, t, h + m)
  {
    assert q.items[h..][m..] == q.items[h + m..];
  }

  lemma {:induction false} TrimKeeps(q: Queue, maxDelay: int, now: int) returns (n: nat)
    requires QueueInv(q) && !q.active
    ensures var t := Trim(q, maxDelay, now);
      QueueInv(t) && DroppedFrames(q, t, n) && !Trims(t, maxDelay, now) && (n == 0 ==> t == q)
    decreases q.ready
  {
    hide Closed, Spaced, Ends, HeadFrame, Rebased, ProjectedDelay, SameButRelease;
    if !Trims(q, maxDelay, now) {
      n := 0;
      SameAsItself(q.items);
    } else {
      var h, d := HeadFrame(q.items, q.ready), DropHeadFrame(q, now);
      DropHeadKeeps(q, now);
      assert DroppedFrames(q, d, h) by { RebasedLength(q.items[h..], now); }
      var m := TrimKeeps(d, maxDelay, now);
      n := h + m;
      DroppedMore(q, d, Trim(d, maxDelay, now), h, m);
    }
  }

  /** Bounding the backlog drops a prefix up to a frame boundary.  With no open frame it fails
      exactly when a keyframe at the head keeps the delay at or above the limit. */
  lemma BoundBacklogKeeps(q: Queue, maxDelay: int, now: int) returns (n: nat)
    requires QueueInv(q) && maxDelay > 0 && !q.active
    ensures var (b, under) := BoundBacklog(q, maxDelay, now);
      && QueueInv(b) && DroppedFrames(q, b, n)
      && (under <==> ProjectedDelay(b, now) < maxDelay)
      && (!under <==> b.items != [] && b.items[0].keyframe && ProjectedDelay(b, now) >= maxDelay)
  {
    hide Closed, Spaced, Ends, SameButRelease, Trim;
    n := TrimKeeps(q, maxDelay, now);
    var t := Trim(q, maxDelay, now);
    if t.items == [] { ClosedPrefix(t.items, t.ready, t.readyFrames); }
  }

  // ---------------------------------------------------------------- reserved bytes

  /** Bytes the queued packets hold back in the pacer. */
  function HeldBytes(items: seq<Item>): nat
  {
    if items == [] then 0 else Held(items[0].reservation) + HeldBytes(items[1..])
  }

  lemma {:induction false} HeldConcat(a: seq<Item>, b: seq<Item>)
    ensures HeldBytes(a + b) == HeldBytes(a) + HeldBytes(b)
  {
    if a == [] {
      assert a + b == b;
    } else {
      assert (a + b)[1..] == a[1..] + b;
      HeldConcat(a[1..], b);
    }
  }

  lemma {:induction false} SameHeld(a: seq<Item>, b: seq<Item>)
    requires |a| == |b| && forall i | 0 <= i < |a| :: a[i].reservation == b[i].reservation
    ensures HeldBytes(a) == HeldBytes(b)
  {
    if a != [] { SameHeld(a[1..], b[1..]); }
  }
}

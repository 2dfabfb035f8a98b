/**
 The egress path as the source runs it: one mutable queue, the session's pacer and its sequence
 translator, changed step by step with explicit undo.  Every method is proved to do what the
 functions of `EgressLane` say, so the claims about whole runs hold of it.
 */
module EgressPath {
  import opened Pacing
  import opened SeqTranslation
  import opened PacedQueue
  import opened PacedSendQueue
  import opened EgressLane

  lemma FreedTail(b: Books, items: seq<Item>, n: nat)
    requires n <= |items|
    ensures CancelItems(b, items[n..]).pacer == Freed(b.pacer, items, items[..n])
  {
    CancelItemsIs(b, items[n..]);
    assert items == items[..n] + items[n..];
    HeldConcat(items[..n], items[n..]);
  }

  lemma FreedHead(b: Books, items: seq<Item>, left: seq<Item>, n: nat)
    requires n <= |items| && SameButRelease(left, items[n..])
    ensures CancelItems(b, items[..n]).pacer == Freed(b.pacer, items, left)
  {
    CancelItemsIs(b, items[..n]);
    assert items == items[..n] + items[n..];
    HeldConcat(items[..n], items[n..]);
    SameHeldRespaced(left, items[n..]);
  }

  /** The drain loop is a run of single rounds. */
  function DrainMany(w: World, limit: nat, now: int, outcomes: seq<Outcome>): World
    decreases limit
  {
    var q := w.lane.queue;
    if q.ready == 0 || q.items == [] || limit == 0 || outcomes == [] || outcomes[0].Blocked? then w
    else if outcomes[0].Accepted? && q.items[0].release > now then w
    else DrainMany(DrainOne(w, outcomes[0].Accepted?, now), limit - 1, now, outcomes[1..])
  }

  lemma {:induction false} RoundsAreDrains(w: World, limit: nat, now: int, outcomes: seq<Outcome>)
    ensures var (q, b, sent) := Rounds(w.lane.queue, w.books.pacer, limit, now, outcomes);
      var w' := DrainMany(w, limit, now, outcomes);
      && q == w'.lane.queue && b == w'.books.pacer && w'.next == w.next && w'.lane.ssrc == w.lane.ssrc
      && w'.lane.screen == w.lane.screen
      && |w'.lane.sent| == |w.lane.sent| + |sent|
      && forall i | 0 <= i < |sent| :: w'.lane.sent[|w.lane.sent| + i].packet == sent[i]
    decreases limit
  {
    var q := w.lane.queue;
    if q.ready == 0 || q.items == [] || limit == 0 || outcomes == [] || outcomes[0].Blocked? {
    } else if outcomes[0].Accepted? && q.items[0].release > now {
    } else {
      var one := DrainOne(w, outcomes[0].Accepted?, now);
      RoundsAreDrains(one, limit - 1, now, outcomes[1..]);
      SentGrows(one, limit - 1, now, outcomes[1..]);
    }
  }

  lemma {:induction false} SentGrows(w: World, limit: nat, now: int, outcomes: seq<Outcome>)
    ensures w.lane.sent <= DrainMany(w, limit, now, outcomes).lane.sent
    decreases limit
  {
    var q := w.lane.queue;
    if q.ready == 0 || q.items == [] || limit == 0 || outcomes == [] || outcomes[0].Blocked? {
    } else if outcomes[0].Accepted? && q.items[0].release > now {
    } else {
      var one := DrainOne(w, outcomes[0].Accepted?, now);
      SentGrows(one, limit - 1, now, outcomes[1..]);
      assert w.lane.sent <= one.lane.sent;
    }
  }

  class Egress {
    const queue: SendQueue
    const translator: Translator
    const ssrc: Ssrc
    const screen: bool

    ghost predicate Valid()
      reads this, queue, queue.ring, queue.ring.entries, queue.pacer, translator, translator.places
    {
      queue.Valid() && translator.Valid()
    }

    /** The objects are in the state `w` describes. */
    ghost predicate Shows(w: World)
      requires Valid()
      reads this, queue, queue.ring, queue.ring.entries, queue.pacer, translator, translator.places
    {
      w.lane.queue == queue.View() && w.books.pacer == queue.pacer.State() && w.next == translator.Numbers()
      && w.lane.ssrc == ssrc && w.lane.screen == screen
    }

    constructor (pacer: Pacer, translator: Translator, ssrc: Ssrc, screen: bool)
      requires translator.Valid()
      ensures Valid() && queue.View() == NEW_QUEUE && queue.pacer == pacer && this.translator == translator
      ensures this.ssrc == ssrc && this.screen == screen
      ensures fresh(queue) && fresh(queue.ring) && fresh(queue.ring.entries)
    {
      this.translator := translator;
      this.ssrc := ssrc;
      this.screen := screen;
      queue := new SendQueue(pacer);
    }

    /** Takes the numbers of a rolled-back frame back. */
    method InvalidateRolledBack(ghost w: World)
      requires Valid() && Shows(w)
      modifies queue, translator.places
      ensures Valid() && Shows(Invalidate(w))
    {
      hide Window, Rollback, Stored, TableOk;
      if queue.rolledCount == 0 { return; }
      var noted, n := queue.rolledSsrc, queue.rolledCount;
      queue.rolledSsrc, queue.rolledCount := 0, 0;
      if noted != 0 { var _ := translator.TakeBack(noted, n); }
    }

    /** The undo of every failure path. */
    method UndoFrame(ghost w: World)
      requires Valid() && Shows(w)
      modifies queue, queue.ring, queue.ring.entries, queue.pacer`reserved, translator.places
      ensures Valid() && Shows(Undo(w))
    {
      hide Window, Rollback, Stored, TableOk, CancelItems, Freed, RollbackFrame, Forget, Invalidate;
      ghost var q := w.lane.queue;
      FreedTail(w.books, q.items, |q.items| - q.open);
      RolledItems(q);
      queue.RollbackInputFrame();
      queue.RejectInputFrame();
      ForgetShows(w.lane, OpenItems(q));
      ghost var rolled := World(Forget(w.lane, OpenItems(q)).(queue := RejectFrame(RollbackFrame(q))),
                                CancelItems(w.books, OpenItems(q)), w.next);
      assert Shows(rolled);
      InvalidateRolledBack(rolled);
    }

    lemma RolledItems(q: Queue)
      requires q.ready + q.open <= |q.items|
      ensures RollbackFrame(q).items == q.items[..|q.items| - q.open]
    {
    }

    lemma ForgetShows(lane: Lane, dropped: seq<Item>)
      ensures var l := Forget(lane, dropped); l.ssrc == lane.ssrc && l.screen == lane.screen && l.frame == lane.frame
    {
    }

    method BoundScreen(ghost w: World, ghost bound: nat, now: int) returns (under: bool)
      requires Valid() && Shows(w) && WorldInv(w, bound) && !queue.frame.active
      modifies queue, queue.ring, queue.ring.entries, queue.pacer`reserved
      ensures Valid() && Shows(BoundLane(w, now).0) && under == BoundLane(w, now).1
    {
      hide Window, Stored, TableOk, CancelItems, Freed, BoundBacklog, Ordered, Mirrors, SentInOrder, Framed, BooksOk,
          QueueInv, SameButRelease;
      ghost var q := w.lane.queue;
      ghost var n := BoundBacklogKeeps(q, SCREEN_MAX_DELAY_US, now);
      ghost var q' := BoundBacklog(q, SCREEN_MAX_DELAY_US, now).0;
      SameHeldRespaced(q'.items, q.items[n..]);
      FreedHead(w.books, q.items, q'.items, n);
      under := queue.BoundQueue(SCREEN_MAX_DELAY_US, now);
    }

    method AdmitPacket(ghost w: World, ghost bound: nat, pkt: Input) returns (ok: bool)
      requires Valid() && Shows(w) && WorldInv(w, bound)
      modifies queue, queue.ring, queue.ring.entries, queue.pacer`reserved, translator.places
      ensures Valid() && Shows(AdmitLane(w, pkt).0) && ok == AdmitLane(w, pkt).1
    {
      hide Window, Stored, TableOk, CancelItems, Freed, Admit, Ordered, Mirrors, SentInOrder, Framed, BooksOk,
          QueueInv, Forget, Invalidate;
      ghost var q := w.lane.queue;
      QueueSizes(q);
      AdmitKeeps(q, pkt.ts, pkt.marker, pkt.keyframe, !screen, MaxDelay(screen), pkt.now);
      FreedTail(w.books, q.items, q.ready);
      FreedNothing(w.books, q.items);
      ok := queue.AdmitFramePacket(pkt.ts, pkt.marker, pkt.keyframe, !screen, MaxDelay(screen), pkt.now);
      ghost var abandons := q.active && q.timestamp != pkt.ts;
      ghost var dropped := if abandons then OpenItems(q) else [];
      ForgetShows(w.lane, dropped);
      ghost var frame := if StartsFrame(q, pkt.ts) then w.lane.frame + 1 else w.lane.frame;
      ghost var lane := Forget(w.lane, dropped).(queue := AdmitQueue(w, pkt).0, frame := frame);
      ghost var admitted := World(lane, CancelItems(w.books, dropped), w.next);
      assert Shows(admitted);
      InvalidateRolledBack(admitted);
    }

    lemma FreedNothing(b: Books, items: seq<Item>)
      ensures CancelItems(b, []).pacer == b.pacer == Freed(b.pacer, items, items)
    {
      CancelItemsIs(b, []);
    }

    /** Pays for and queues a numbered packet; whatever fails, everything done for it is undone. */
    method PayAndQueue(ghost w: World, number: nat, id: nat, pkt: Input) returns (done: bool)
      requires Valid() && Shows(w)
      modifies queue, queue.ring, queue.ring.entries, queue.pacer, translator.places
      ensures Valid() && Shows(PayLane(w, number, id, pkt).0) && done == PayLane(w, number, id, pkt).1
    {
      hide Window, Stored, TableOk, Rollback, Undo, Enqueue, Reserve, Cancel;
      ghost var (books, reserved) := BookReserve(w.books, id, pkt.cls, pkt.len, pkt.allowDrop, pkt.now);
      var r := queue.pacer.ReserveBytes(pkt.cls, pkt.len, pkt.allowDrop, pkt.now);
      if r.None? {
        var _ := translator.TakeBack(ssrc, 1);
        UndoFrame(TakeNumberBack(w.(books := books)));
        return false;
      }
      done := queue.EnqueuePacket(id, number, pkt.noted, pkt.keyframe || queue.frame.key, pkt.len, queue.pacer.rate,
                                  r.value, pkt.now);
      if !done {
        var _ := queue.pacer.CancelReservation(r.value);
        var _ := translator.TakeBack(ssrc, 1);
        UndoFrame(TakeNumberBack(w.(books := BookCancel(books, id, r.value))));
      }
    }

    /** Numbers, pays for and queues a packet. */
    method QueuePacket(ghost w: World, id: nat, pkt: Input) returns (done: bool)
      requires Valid() && Shows(w)
      modifies queue, queue.ring, queue.ring.entries, queue.pacer, translator.places
      ensures Valid() && Shows(QueueLane(w, id, pkt).0) && done == QueueLane(w, id, pkt).1
    {
      hide Window, Stored, TableOk, Translate, Rollback, Undo, PayLane;
      RefusalIsFree(w.next, ssrc, pkt.source);
      var number := translator.Next(ssrc, pkt.source);
      if number.None? { return false; }
      ghost var numbered := TakeNumber(w, pkt.source).0;
      if pkt.fault.HeaderFault? {
        var _ := translator.TakeBack(ssrc, 1);
        UndoFrame(TakeNumberBack(numbered));
        return false;
      }
      done := PayAndQueue(numbered, number.value, id, pkt);
    }

    lemma RefusalIsFree(m: Numbering, ssrc: Ssrc, source: nat)
      ensures Translate(m, ssrc, source).1.None? ==> Translate(m, ssrc, source).0 == m
    {
    }

    /** The whole path of one packet. */
    method ProcessLocal(ghost w: World, id: nat, pkt: Input)
      requires Valid() && Shows(w) && WorldInv(w, id)
      modifies queue, queue.ring, queue.ring.entries, queue.pacer, translator.places
      ensures Valid() && Shows(Offer(w, id, pkt))
    {
      hide Window, Stored, TableOk, WorldInv, BoundLane, AdmitLane, QueueLane;
      if pkt.fault.Unauthorized? { return; }
      ghost var bounded := w;
      if screen && !queue.frame.active {
        BoundLaneKeeps(w, pkt.now, id);
        bounded := BoundLane(w, pkt.now).0;
        var under := BoundScreen(w, id, pkt.now);
        if !under && !pkt.keyframe { return; }
      }
      AdmitLaneKeeps(bounded, pkt, id);
      ghost var admitted := AdmitLane(bounded, pkt).0;
      var ok := AdmitPacket(bounded, id, pkt);
      if !ok { return; }
      QueueLaneKeeps(admitted, id, pkt);
      ghost var queued := QueueLane(admitted, id, pkt).0;
      var done := QueuePacket(admitted, id, pkt);
      if !done || !pkt.marker { return; }
      FinishLaneKeeps(queued, id + 1);
      queue.FinishInputFrame();
      if screen { var _ := BoundScreen(FinishLane(queued), id + 1, pkt.now); }
    }

    /** A drain call is a run of single rounds. */
    method Drain(ghost w: World, limit: nat, now: int, outcomes: seq<Outcome>) returns (sent: seq<nat>, remaining: nat)
      requires Valid() && Shows(w)
      modifies queue, queue.ring, queue.ring.entries, queue.pacer
      ensures Valid() && Shows(DrainMany(w, limit, now, outcomes)) && remaining <= limit
      ensures var after := DrainMany(w, limit, now, outcomes).lane.sent;
        |after| == |w.lane.sent| + |sent| && forall i | 0 <= i < |sent| :: after[|w.lane.sent| + i].packet == sent[i]
    {
      hide Window, Stored, TableOk, Rounds;
      RoundsAreDrains(w, limit, now, outcomes);
      assert queue.ring.count == 0 ==> w.lane.queue.items == [];
      sent, remaining := queue.DrainQueue(limit, now, outcomes);
    }
  }
}

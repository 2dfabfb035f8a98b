/**
 What becomes of every single reservation: the reservation granted for a packet is held by the
 queued packet, or was committed for the sent one, or was cancelled.
 */
module EgressSettlement {
  import opened Pacing
  import opened SeqTranslation
  import opened PacedQueue
  import opened EgressLane

  /** How often packet `x` is queued. */
  function Queued(items: seq<Item>, x: nat): nat {
    if items == [] then 0 else (if items[0].packet == x then 1 else 0) + Queued(items[1..], x)
  }

  /** How often packet `x` was sent. */
  function Sends(sent: seq<Sent>, x: nat): nat {
    if sent == [] then 0 else Sends(sent[..|sent| - 1], x) + (if sent[|sent| - 1].packet == x then 1 else 0)
  }

  /** Reservations for packet `x` that were granted and neither committed nor cancelled. */
  function Pending(l: Ledger, x: nat): int { l.granted[x] as int - l.committed[x] as int - l.cancelled[x] as int }

  /** What a step of a stream does about packet `x`: it settles what it takes out of the queue,
      commits what it sends, and reserves at most once, for packet `id` if it is `new`. */
  ghost predicate Settles(w: World, w': World, x: nat, id: nat, new': bool) {
    && Pending(w'.books.ledger, x) - Queued(w'.lane.queue.items, x) ==
         Pending(w.books.ledger, x) - Queued(w.lane.queue.items, x)
    && w'.books.ledger.committed[x] as int - Sends(w'.lane.sent, x) ==
         w.books.ledger.committed[x] as int - Sends(w.lane.sent, x)
    && w'.books.ledger.granted[x] <= w.books.ledger.granted[x] + (if new' && x == id then 1 else 0)
  }

  lemma SettlesTwice(a: World, b: World, c: World, x: nat, id: nat, new1: bool, new2: bool)
    requires Settles(a, b, x, id, new1) && Settles(b, c, x, id, new2) && !(new1 && new2)
    ensures Settles(a, c, x, id, new1 || new2)
  {
  }

  lemma SettlesItself(w: World, x: nat, id: nat, new': bool)
    ensures Settles(w, w, x, id, new')
  {
  }

  lemma SettlesNew(w: World, w': World, x: nat, id: nat)
    requires Settles(w, w', x, id, false)
    ensures Settles(w, w', x, id, true)
  {
  }

  lemma {:induction false} QueuedConcat(a: seq<Item>, b: seq<Item>, x: nat)
    ensures Queued(a + b, x) == Queued(a, x) + Queued(b, x)
  {
    if a == [] { assert a + b == b; } else {
      QueuedConcat(a[1..], b, x);
      assert (a + b)[1..] == a[1..] + b;
    }
  }

  lemma QueuedSplit(items: seq<Item>, n: nat, x: nat)
    requires n <= |items|
    ensures Queued(items, x) == Queued(items[..n], x) + Queued(items[n..], x)
  {
    assert items == items[..n] + items[n..];
    QueuedConcat(items[..n], items[n..], x);
  }

  lemma {:induction false} SameQueued(a: seq<Item>, b: seq<Item>, x: nat)
    requires |a| == |b| && forall i | 0 <= i < |a| :: a[i].packet == b[i].packet
    ensures Queued(a, x) == Queued(b, x)
  {
    if a != [] { SameQueued(a[1..], b[1..], x); }
  }

  lemma QueuedOne(item: Item, x: nat)
    ensures Queued([item], x) == if item.packet == x then 1 else 0
  {
    assert [item][1..] == [];
  }

  /** Cancelling packets settles each of them once. */
  lemma {:induction false} CancelsEach(b: Books, items: seq<Item>, x: nat)
    ensures var l, l' := b.ledger, CancelItems(b, items).ledger;
      l'.granted == l.granted && l'.committed == l.committed && l'.cancelled[x] == l.cancelled[x] + Queued(items, x)
    decreases |items|
  {
    if items != [] { CancelsEach(BookCancel(b, items[0].packet, items[0].reservation), items[1..], x); }
  }

  // ------------------------------------------------------------------------- the moves

  /** A step that takes some packets out of the queue and cancels exactly those. */
  lemma DropSettles(w: World, w': World, dropped: seq<Item>, x: nat, id: nat)
    requires w'.books == CancelItems(w.books, dropped) && w'.lane.sent == w.lane.sent
    requires Queued(w.lane.queue.items, x) == Queued(w'.lane.queue.items, x) + Queued(dropped, x)
    ensures Settles(w, w', x, id, false)
  {
    hide Queued, CancelItems;
    CancelsEach(w.books, dropped, x);
  }

  lemma UndoSettles(w: World, bound: nat, x: nat, id: nat)
    requires WorldInv(w, bound)
    ensures Settles(w, Undo(w), x, id, false)
  {
    hide QueueInv, Mirrors, Ordered, SentInOrder, Framed, BooksOk, Settles, CancelItems, RollbackFrame, Rollback,
        NotedSsrc, Started, Queued;
    var q := w.lane.queue;
    OpenIs(q);
    QueueSizes(q);
    RollbackKeeps(q);
    QueuedSplit(q.items, q.ready, x);
    DropSettles(w, Undo(w), OpenItems(q), x, id);
  }

  lemma BoundSettles(w: World, now: int, bound: nat, x: nat, id: nat)
    requires WorldInv(w, bound) && !w.lane.queue.active
    ensures Settles(w, BoundLane(w, now).0, x, id, false)
  {
    hide QueueInv, Mirrors, Ordered, SentInOrder, Framed, BooksOk, Settles, CancelItems, BoundBacklog, Started, Queued;
    var q := w.lane.queue;
    QueueSizes(q);
    var n := BoundBacklogKeeps(q, SCREEN_MAX_DELAY_US, now);
    var q' := BoundBacklog(q, SCREEN_MAX_DELAY_US, now).0;
    SameQueued(q'.items, q.items[n..], x);
    QueuedSplit(q.items, n, x);
    DropSettles(w, BoundLane(w, now).0, q.items[..n], x, id);
  }

  lemma AdmitSettles(w: World, pkt: Input, bound: nat, x: nat, id: nat)
    requires WorldInv(w, bound)
    ensures Settles(w, AdmitLane(w, pkt).0, x, id, false)
  {
    hide QueueInv, Mirrors, Ordered, SentInOrder, Framed, BooksOk, Settles, CancelItems, Admit, Rollback, NotedSsrc,
        Started, Queued, Shares;
    var q := w.lane.queue;
    OpenIs(q);
    QueueSizes(q);
    AdmitKeeps(q, pkt.ts, pkt.marker, pkt.keyframe, !w.lane.screen, MaxDelay(w.lane.screen), pkt.now);
    QueuedSplit(q.items, q.ready, x);
    NoneQueued(x);
    DropSettles(w, AdmitLane(w, pkt).0, if q.active && q.timestamp != pkt.ts then OpenItems(q) else [], x, id);
  }

  lemma NoneQueued(x: nat)
    ensures Queued([], x) == 0
  {
  }

  /** Reserving and cancelling at once settles the reservation. */
  lemma ReserveSettles(b: Books, id: nat, cls: PacerClass, bytes: nat, allowDrop: bool, now: int, x: nat)
    ensures var (b', r) := BookReserve(b, id, cls, bytes, allowDrop, now); var one := if x == id then 1 else 0;
      && b'.ledger.committed == b.ledger.committed && b'.ledger.cancelled == b.ledger.cancelled
      && b'.ledger.granted[x] == b.ledger.granted[x] + (if r.Some? then one else 0)
      && (r.Some? ==>
            var l := BookCancel(b', id, r.value).ledger;
            l == b'.ledger.(cancelled := l.cancelled) && l.cancelled[x] == b.ledger.cancelled[x] + one)
  {
  }

  /** A step before the queue is touched: only the books change. */
  lemma BooksSettle(w: World, w': World, x: nat, id: nat)
    requires w'.lane.queue == w.lane.queue && w'.lane.sent == w.lane.sent
    requires Pending(w'.books.ledger, x) == Pending(w.books.ledger, x)
    requires w'.books.ledger.committed == w.books.ledger.committed
    requires w'.books.ledger.granted[x] <= w.books.ledger.granted[x] + (if x == id then 1 else 0)
    ensures Settles(w, w', x, id, true)
  {
  }

  lemma UndoneSettles(w: World, books: Books, bound: nat, x: nat, id: nat)
    requires WorldInv(w, bound) && BooksOk(books)
    requires Pending(books.ledger, x) == Pending(w.books.ledger, x)
    requires books.ledger.committed == w.books.ledger.committed
    requires books.ledger.granted[x] <= w.books.ledger.granted[x] + (if x == id then 1 else 0)
    ensures Settles(w, Undo(TakeNumberBack(w.(books := books))), x, id, true)
  {
    hide LaneInv, BooksOk, Undo, Settles, Rollback, Pending;
    var back := TakeNumberBack(w.(books := books));
    BooksSettle(w, back, x, id);
    BackKeepsLane(w, bound);
    UndoSettles(back, bound, x, id);
    SettlesTwice(w, back, Undo(back), x, id, true, false);
  }

  lemma PaySettles(w: World, number: nat, id: nat, pkt: Input, x: nat)
    requires WorldInv(w, id)
    ensures Settles(w, PayLane(w, number, id, pkt).0, x, id, true)
  {
    hide LaneInv, BooksOk, BookReserve, BookCancel, Undo, TakeNumberBack, Span;
    var (books, r) := BookReserve(w.books, id, pkt.cls, pkt.len, pkt.allowDrop, pkt.now);
    ReserveKeepsBooks(w.books, id, pkt.cls, pkt.len, pkt.allowDrop, pkt.now);
    ReserveSettles(w.books, id, pkt.cls, pkt.len, pkt.allowDrop, pkt.now, x);
    if r.None? {
      UndoneSettles(w, books, id, x, id);
    } else {
      var q := w.lane.queue;
      var e := Enqueue(q, id, number, pkt.noted, pkt.keyframe || q.key, pkt.len, books.pacer.rate, r.value, pkt.now);
      if e.None? {
        UndoneSettles(w, BookCancel(books, id, r.value), id, x, id);
      } else {
        var item := e.value.items[|q.items|];
        QueuedConcat(q.items, [item], x);
        QueuedOne(item, x);
      }
    }
  }

  lemma QueueSettles(w: World, id: nat, pkt: Input, x: nat)
    requires WorldInv(w, id)
    ensures Settles(w, QueueLane(w, id, pkt).0, x, id, true)
  {
    hide WorldInv, PayLane, Settles, Undo, TakeNumber, BooksOk;
    SettlesItself(w, x, id, true);
    var (numbered, number) := TakeNumber(w, pkt.source);
    if number.Some? {
      TakeNumberKeeps(w, pkt.source, id);
      TakeNumberSettles(w, pkt.source, x, id);
      WorldHasBooks(numbered, id);
      if pkt.fault.HeaderFault? {
        UndoneSettles(numbered, numbered.books, id, x, id);
        SettlesTwice(w, numbered, Undo(TakeNumberBack(numbered)), x, id, false, true);
      } else {
        PaySettles(numbered, number.value, id, pkt, x);
        SettlesTwice(w, numbered, PayLane(numbered, number.value, id, pkt).0, x, id, false, true);
      }
    }
  }

  lemma TakeNumberSettles(w: World, source: nat, x: nat, id: nat)
    ensures Settles(w, TakeNumber(w, source).0, x, id, false)
  {
  }

  lemma FinishSettles(w: World, bound: nat, x: nat, id: nat)
    requires WorldInv(w, bound)
    ensures Settles(w, FinishLane(w), x, id, false)
  {
    hide QueueInv, Mirrors, Ordered, SentInOrder, Framed, BooksOk, Started;
    SameQueued(FinishFrame(w.lane.queue).items, w.lane.queue.items, x);
  }

  /** The head packet is committed if it is sent and cancelled if it is stale. */
  lemma DrainSettles(w: World, valid: bool, now: int, x: nat, id: nat)
    ensures Settles(w, DrainOne(w, valid, now), x, id, false)
  {
    hide Pop, Emptied, Queued, Sends, Commit, Cancel;
    var q := w.lane.queue;
    if !(q.ready == 0 || q.items == [] || (valid && q.items[0].release > now)) {
      PopIs(q);
      QueuedHead(q.items, x);
      SendsAppend(w.lane.sent, Sent(q.items[0].packet, Held(q.items[0].reservation)), x);
    }
  }

  lemma QueuedHead(items: seq<Item>, x: nat)
    requires items != []
    ensures Queued(items, x) == (if items[0].packet == x then 1 else 0) + Queued(items[1..], x)
  {
  }

  lemma SendsAppend(sent: seq<Sent>, s: Sent, x: nat)
    ensures Sends(sent + [s], x) == Sends(sent, x) + (if s.packet == x then 1 else 0)
  {
    assert (sent + [s])[..|sent|] == sent;
  }

  lemma OfferSettles(w: World, id: nat, pkt: Input, x: nat)
    requires WorldInv(w, id)
    ensures Settles(w, Offer(w, id, pkt), x, id, true)
  {
    hide WorldInv, Settles, BoundLane, AdmitLane, QueueLane, FinishLane;
    SettlesItself(w, x, id, true);
    SettlesItself(w, x, id, false);
    if !pkt.fault.Unauthorized? {
      if w.lane.screen && !w.lane.queue.active { BoundLaneKeeps(w, pkt.now, id); BoundSettles(w, pkt.now, id, x, id); }
      var (bounded, under) := if w.lane.screen && !w.lane.queue.active then BoundLane(w, pkt.now) else (w, true);
      if under || pkt.keyframe {
        AdmitLaneKeeps(bounded, pkt, id);
        AdmitSettles(bounded, pkt, id, x, id);
        var (admitted, ok) := AdmitLane(bounded, pkt);
        SettlesTwice(w, bounded, admitted, x, id, false, false);
        SettlesNew(w, admitted, x, id);
        if ok { AfterAdmitSettles(w, admitted, id, pkt, x); }
      } else {
        SettlesNew(w, bounded, x, id);
      }
    }
  }

  lemma AfterAdmitSettles(w: World, admitted: World, id: nat, pkt: Input, x: nat)
    requires WorldInv(admitted, id) && admitted.lane.queue.active && !admitted.lane.queue.drop
    requires Settles(w, admitted, x, id, false)
    ensures var (queued, done) := QueueLane(admitted, id, pkt); var finished := FinishLane(queued);
      && Settles(w, queued, x, id, true) && Settles(w, finished, x, id, true)
      && Settles(w, BoundLane(finished, pkt.now).0, x, id, true)
  {
    hide WorldInv, Settles, BoundLane, QueueLane, FinishLane;
    var queued := QueueLane(admitted, id, pkt).0;
    var finished := FinishLane(queued);
    QueueLaneKeeps(admitted, id, pkt);
    QueueSettles(admitted, id, pkt, x);
    SettlesTwice(w, admitted, queued, x, id, false, true);
    FinishLaneKeeps(queued, id + 1);
    FinishSettles(queued, id + 1, x, id);
    SettlesTwice(w, queued, finished, x, id, true, false);
    BoundLaneKeeps(finished, pkt.now, id + 1);
    BoundSettles(finished, pkt.now, id + 1, x, id);
    SettlesTwice(w, finished, BoundLane(finished, pkt.now).0, x, id, true, false);
  }
}

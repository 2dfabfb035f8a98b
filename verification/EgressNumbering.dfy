/**
 Outbound numbers of one stream.  A packet is numbered under the SSRC in its header, but a
 rolled-back frame gives its numbers back under the SSRC that was noted for it.  Every step of
 the stream keeps count of the numbers that were thereby not given back, and of those it took
 back from other streams.
 */
module EgressNumbering {
  import opened Arithmetic
  import opened SeqTranslation
  import opened PacedQueue
  import opened EgressLane

  /** The frame's numbers went back to where they came from. */
  predicate Matches(note: Note, ssrc: Ssrc) { note.ssrc == ssrc && ssrc != 0 }

  /** Numbers of packets that were rolled back behind kept ones and not given back. */
  function Strays(notes: seq<Note>, ssrc: Ssrc): nat {
    if notes == [] then 0
    else
      var last := notes[|notes| - 1];
      Strays(notes[..|notes| - 1], ssrc) + (if last.late && !Matches(last, ssrc) then last.count else 0)
  }

  /** Numbers that rolled-back frames took back from stream `u`. */
  function Reclaimed(notes: seq<Note>, u: Ssrc): nat {
    if notes == [] then 0
    else
      var last := notes[|notes| - 1];
      Reclaimed(notes[..|notes| - 1], u) + (if Matches(last, u) then last.count else 0)
  }

  /** Packets of rolled-back frames. */
  function Rolled(notes: seq<Note>): nat {
    if notes == [] then 0 else Rolled(notes[..|notes| - 1]) + notes[|notes| - 1].count
  }

  ghost predicate Consecutive(log: seq<Logged>) {
    forall i | 0 <= i < |log| :: log[i].seqNo == (log[0].seqNo + i) % SEQ_MOD
  }

  /** The translator is ahead of the kept packets by exactly the strays; as long as there are
      none, kept packets carry consecutive numbers.  Only a stream with packets that cannot be
      rolled back has strays. */
  ghost predicate Tracked(lane: Lane, next: Numbering) {
    && (lane.ssrc in next ==> next[lane.ssrc] < SEQ_MOD)
    && (Strays(lane.notes, lane.ssrc) > 0 ==> |lane.log| > lane.queue.open)
    && (lane.log != [] ==>
          && lane.ssrc in next
          && next[lane.ssrc] == (lane.log[0].seqNo + |lane.log| + Strays(lane.notes, lane.ssrc)) % SEQ_MOD
          && (Strays(lane.notes, lane.ssrc) == 0 ==> Consecutive(lane.log)))
  }

  /** Every queued packet is noted under the SSRC of its header. */
  ghost predicate Own(lane: Lane) {
    lane.ssrc != 0 && forall i | 0 <= i < |lane.queue.items| :: lane.queue.items[i].ssrc == lane.ssrc
  }

  function Back(n: nat, d: int): nat { if d <= 0 then n else (n - d) % SEQ_MOD }

  /** Other streams lose exactly the numbers that were taken back under their SSRC. */
  ghost predicate Elsewhere(w: World, w': World) {
    forall u | u != w.lane.ssrc ::
      && (u in w'.next <==> u in w.next)
      && (u in w.next ==>
            w'.next[u] == Back(w.next[u], Reclaimed(w'.lane.notes, u) - Reclaimed(w.lane.notes, u)))
  }

  /** What a step of the stream does to numbers: it keeps count, rolls back at most the open frame,
      and matches all its notes if it queues under its own SSRC. */
  ghost predicate Moves(w: World, w': World, more: nat, own: bool) {
    && w'.lane.ssrc == w.lane.ssrc && w.lane.notes <= w'.lane.notes
    && Rolled(w'.lane.notes) + w'.lane.queue.open <= Rolled(w.lane.notes) + w.lane.queue.open + more
    && (forall i | |w.lane.notes| <= i < |w'.lane.notes| :: w'.lane.notes[i].count > 0)
    && (Tracked(w.lane, w.next) ==> Tracked(w'.lane, w'.next))
    && Elsewhere(w, w')
    && (own && Own(w.lane) ==>
          Own(w'.lane) && forall i | |w.lane.notes| <= i < |w'.lane.notes| :: Matches(w'.lane.notes[i], w.lane.ssrc))
  }

  lemma {:induction false} ReclaimedGrows(notes: seq<Note>, more: seq<Note>, u: Ssrc)
    requires notes <= more
    ensures Reclaimed(notes, u) <= Reclaimed(more, u)
    decreases |more|
  {
    if |notes| == |more| {
      assert notes == more;
    } else {
      ReclaimedGrows(notes, more[..|more| - 1], u);
    }
  }

  lemma NotesAppend(notes: seq<Note>, note: Note, u: Ssrc)
    ensures Strays(notes + [note], u) ==
      Strays(notes, u) + (if note.late && !Matches(note, u) then note.count else 0)
    ensures Reclaimed(notes + [note], u) == Reclaimed(notes, u) + (if Matches(note, u) then note.count else 0)
    ensures Rolled(notes + [note]) == Rolled(notes) + note.count
  {
    assert (notes + [note])[..|notes|] == notes;
  }

  lemma MovesTwice(a: World, b: World, c: World, m: nat, n: nat, own: bool)
    requires Moves(a, b, m, own) && Moves(b, c, n, own)
    ensures Moves(a, c, m + n, own)
  {
    hide Tracked, Own, Reclaimed, Rolled, Matches;
    forall u | u != a.lane.ssrc && u in a.next
      ensures c.next[u] == Back(a.next[u], Reclaimed(c.lane.notes, u) - Reclaimed(a.lane.notes, u))
    {
      ReclaimedGrows(a.lane.notes, b.lane.notes, u);
      ReclaimedGrows(b.lane.notes, c.lane.notes, u);
      BackTwice(a.next[u], Reclaimed(b.lane.notes, u) - Reclaimed(a.lane.notes, u),
                Reclaimed(c.lane.notes, u) - Reclaimed(b.lane.notes, u));
    }
    forall i | |a.lane.notes| <= i < |b.lane.notes| ensures c.lane.notes[i] == b.lane.notes[i] {}
  }

  lemma BackTwice(n: nat, d: nat, e: nat)
    ensures Back(Back(n, d), e) == Back(n, d + e)
  {
    if d > 0 && e > 0 { assert ((n - d) % SEQ_MOD - e) % SEQ_MOD == (n - d - e) % SEQ_MOD; }
  }

  lemma MovesItself(w: World, more: nat, own: bool)
    ensures Moves(w, w, more, own)
  {
  }

  // ------------------------------------------------------------------------- the moves

  lemma NotedOwn(items: seq<Item>, ssrc: Ssrc)
    requires items != [] && items[0].ssrc == ssrc != 0
    ensures NotedSsrc(items, 0) == ssrc
  {
  }

  lemma RollbackIsSubtraction(next: Numbering, ssrc: Ssrc, total: nat, n: nat)
    requires ssrc in next && next[ssrc] == total % SEQ_MOD && 0 < n <= total
    ensures Rollback(next, ssrc, n)[ssrc] == (total - n) % SEQ_MOD
  {
    assert (total % SEQ_MOD - n) % SEQ_MOD == (total - n) % SEQ_MOD;
  }

  /** A rollback gives back exactly its own numbers, to whichever stream it was noted under. */
  lemma RollMoves(w: World, w': World, bound: nat, own: bool)
    requires WorldInv(w, bound) && w.lane.queue.open > 0
    requires var n, noted := w.lane.queue.open, NotedSsrc(OpenItems(w.lane.queue), 0);
      && n <= |w.lane.log|
      && w'.lane.ssrc == w.lane.ssrc && w'.lane.log == w.lane.log[..|w.lane.log| - n]
      && w'.lane.notes == w.lane.notes + [Note(noted, n, n < |w.lane.log|)]
      && w'.lane.queue.items == w.lane.queue.items[..w.lane.queue.ready] && w'.lane.queue.open == 0
      && w'.next == if noted != 0 then Rollback(w.next, noted, n) else w.next
    ensures Moves(w, w', 0, own)
  {
    hide QueueInv, Mirrors, Ordered, SentInOrder, Framed, BooksOk, Strays, NotedSsrc, OpenItems, Reclaimed, Rolled,
        Rollback, Tracked;
    var n, ssrc := w.lane.queue.open, w.lane.ssrc;
    var open := OpenItems(w.lane.queue);
    var note := Note(NotedSsrc(open, 0), n, n < |w.lane.log|);
    OpenIs(w.lane.queue);
    QueueSizes(w.lane.queue);
    NotesAppend(w.lane.notes, note, ssrc);
    if Own(w.lane) {
      assert open[0] == w.lane.queue.items[w.lane.queue.ready];
      NotedOwn(open, ssrc);
    }
    RollElsewhere(w, w', note);
    if Tracked(w.lane, w.next) { RollTracks(w, w', note); }
  }

  lemma RollElsewhere(w: World, w': World, note: Note)
    requires w'.lane.ssrc == w.lane.ssrc && w'.lane.notes == w.lane.notes + [note] && note.count > 0
    requires w'.next == if note.ssrc != 0 then Rollback(w.next, note.ssrc, note.count) else w.next
    ensures Elsewhere(w, w')
  {
    hide Reclaimed;
    forall u | u != w.lane.ssrc && u in w.next
      ensures w'.next[u] == Back(w.next[u], Reclaimed(w'.lane.notes, u) - Reclaimed(w.lane.notes, u))
    {
      NotesAppend(w.lane.notes, note, u);
    }
  }

  lemma RollTracks(w: World, w': World, note: Note)
    requires Tracked(w.lane, w.next) && w'.lane.ssrc == w.lane.ssrc && w'.lane.notes == w.lane.notes + [note]
    requires 0 < note.count == w.lane.queue.open <= |w.lane.log| && note.late == (note.count < |w.lane.log|)
    requires w'.lane.log == w.lane.log[..|w.lane.log| - note.count] && w'.lane.queue.open == 0
    requires w'.next == if note.ssrc != 0 then Rollback(w.next, note.ssrc, note.count) else w.next
    ensures Tracked(w'.lane, w'.next)
  {
    hide Strays;
    var ssrc, log := w.lane.ssrc, w.lane.log;
    NotesAppend(w.lane.notes, note, ssrc);
    if Matches(note, ssrc) {
      RollbackIsSubtraction(w.next, ssrc, log[0].seqNo + |log| + Strays(w.lane.notes, ssrc), note.count);
    }
  }

  lemma UndoMoves(w: World, bound: nat, own: bool)
    requires WorldInv(w, bound)
    ensures Moves(w, Undo(w), 0, own)
  {
    hide QueueInv, Mirrors, Ordered, SentInOrder, Framed, BooksOk, Moves, CancelItems, RollbackFrame, Rollback,
        NotedSsrc, Started;
    var q := w.lane.queue;
    OpenIs(q);
    QueueSizes(q);
    RollbackKeeps(q);
    RollbackIs(q);
    if q.open == 0 {
      assert OpenItems(q) == [];
      QueueOnlyMoves(w, Undo(w), own);
    } else {
      ForgetKeepsLane(w.lane, w.next, bound);
      ForgetIs(w.lane, OpenItems(q));
      RollMoves(w, Undo(w), bound, own);
    }
  }

  /** A step that leaves numbers alone and queues nothing. */
  lemma QueueOnlyMoves(w: World, w': World, own: bool)
    requires w'.lane.ssrc == w.lane.ssrc && w'.lane.log == w.lane.log && w'.lane.notes == w.lane.notes
    requires w'.next == w.next && w'.lane.queue.open <= w.lane.queue.open
    requires Own(w.lane) ==> Own(w'.lane)
    ensures Moves(w, w', 0, own)
  {
  }

  lemma BoundMoves(w: World, now: int, bound: nat, own: bool)
    requires WorldInv(w, bound) && !w.lane.queue.active
    ensures Moves(w, BoundLane(w, now).0, 0, own)
  {
    hide QueueInv, Mirrors, Ordered, SentInOrder, Framed, BooksOk, Moves, CancelItems, BoundBacklog, Started;
    var q := w.lane.queue;
    QueueSizes(q);
    var n := BoundBacklogKeeps(q, SCREEN_MAX_DELAY_US, now);
    var q' := BoundBacklog(q, SCREEN_MAX_DELAY_US, now).0;
    assert forall i | 0 <= i < |q'.items| :: q'.items[i].ssrc == q.items[n + i].ssrc;
    QueueOnlyMoves(w, BoundLane(w, now).0, own);
  }

  lemma AdmitMoves(w: World, pkt: Input, bound: nat, own: bool)
    requires WorldInv(w, bound)
    ensures Moves(w, AdmitLane(w, pkt).0, 0, own)
  {
    hide Moves, AdmitLane, WorldInv;
    if Abandons(w, pkt) { AbandonMoves(w, pkt, bound, own); } else { AdmitPlainMoves(w, pkt, bound, own); }
  }

  lemma AbandonMoves(w: World, pkt: Input, bound: nat, own: bool)
    requires WorldInv(w, bound) && Abandons(w, pkt)
    ensures Moves(w, AdmitLane(w, pkt).0, 0, own)
  {
    hide QueueInv, Mirrors, Ordered, SentInOrder, Framed, BooksOk, Moves, CancelItems, Admit, Rollback, NotedSsrc,
        Started, Shares, Packets, Forget, OpenItems;
    var q := w.lane.queue;
    OpenIs(q);
    QueueSizes(q);
    AdmitKeeps(q, pkt.ts, pkt.marker, pkt.keyframe, !w.lane.screen, MaxDelay(w.lane.screen), pkt.now);
    AdmitIs(q, pkt.ts, pkt.marker, pkt.keyframe, !w.lane.screen, MaxDelay(w.lane.screen), pkt.now);
    MirrorsSize(q.items, w.lane.log);
    ForgetIs(w.lane, OpenItems(q));
    RollMoves(w, AdmitLane(w, pkt).0, bound, own);
  }

  lemma AdmitPlainMoves(w: World, pkt: Input, bound: nat, own: bool)
    requires WorldInv(w, bound) && !Abandons(w, pkt)
    ensures Moves(w, AdmitLane(w, pkt).0, 0, own)
  {
    hide QueueInv, Mirrors, Ordered, SentInOrder, Framed, BooksOk, Moves, CancelItems, Admit, Rollback, NotedSsrc,
        Started, Shares, Packets;
    var q := w.lane.queue;
    OpenIs(q);
    QueueSizes(q);
    AdmitKeeps(q, pkt.ts, pkt.marker, pkt.keyframe, !w.lane.screen, MaxDelay(w.lane.screen), pkt.now);
    AdmitIs(q, pkt.ts, pkt.marker, pkt.keyframe, !w.lane.screen, MaxDelay(w.lane.screen), pkt.now);
    AdmitPlainKeeps(w, pkt, bound);
    assert q.open == 0 ==> q.items[..q.ready] == q.items;
    QueueOnlyMoves(w, AdmitLane(w, pkt).0, own);
  }

  // ----------------------------------------------------------------- numbering a packet

  /** The number a tracked stream hands out next, and where that leaves it. */
  lemma TakeNumberIs(w: World, source: nat)
    requires Tracked(w.lane, w.next) && source < SEQ_MOD && TakeNumber(w, source).1.Some?
    ensures var (w', number) := TakeNumber(w, source); var lane := w.lane;
      && w'.lane == lane && w'.books == w.books && number.value < SEQ_MOD
      && lane.ssrc in w'.next && w'.next[lane.ssrc] == (number.value + 1) % SEQ_MOD
      && (lane.log != [] ==>
            number.value == (lane.log[0].seqNo + |lane.log| + Strays(lane.notes, lane.ssrc)) % SEQ_MOD)
  {
    hide Strays;
  }

  lemma TakeNumberElsewhere(w: World, source: nat)
    ensures var w' := TakeNumber(w, source).0;
      && w' == w.(next := w'.next)
      && forall u | u != w.lane.ssrc :: (u in w'.next <==> u in w.next) && (u in w.next ==> w'.next[u] == w.next[u])
  {
  }

  /** A number that is taken back at once changes nothing for kept packets. */
  lemma RetryMoves(w: World, source: nat, books: Books, own: bool)
    requires source < SEQ_MOD && TakeNumber(w, source).1.Some?
    ensures Moves(w, TakeNumberBack(TakeNumber(w, source).0.(books := books)), 0, own)
  {
    hide Strays, TakeNumber, Consecutive, Rolled, Reclaimed, Own;
    var (numbered, number) := TakeNumber(w, source);
    TakeNumberElsewhere(w, source);
    if Tracked(w.lane, w.next) {
      TakeNumberIs(w, source);
      RollbackIsSubtraction(numbered.next, w.lane.ssrc, number.value + 1, 1);
    }
  }

  /** A queued packet takes the next number. */
  lemma AppendMoves(w: World, source: nat, id: nat, q: Queue, books: Books, own: bool)
    requires source < SEQ_MOD && TakeNumber(w, source).1.Some?
    requires q.items != [] && q.items[..|q.items| - 1] == w.lane.queue.items && q.open <= w.lane.queue.open + 1
    requires own ==> Last(q.items).ssrc == w.lane.ssrc
    ensures var (numbered, number) := TakeNumber(w, source);
      var log := numbered.lane.log + [Logged(id, number.value, numbered.lane.frame)];
      Moves(w, World(numbered.lane.(queue := q, log := log), books, numbered.next), 1, own)
  {
    hide Strays, TakeNumber, Rolled, Reclaimed, Tracked;
    var (numbered, number) := TakeNumber(w, source);
    TakeNumberElsewhere(w, source);
    if Tracked(w.lane, w.next) {
      var log := numbered.lane.log + [Logged(id, number.value, numbered.lane.frame)];
      AppendTracks(w, source, World(numbered.lane.(queue := q, log := log), books, numbered.next));
    }
    assert forall i | 0 <= i < |w.lane.queue.items| :: q.items[i] == q.items[..|q.items| - 1][i];
  }

  lemma AppendTracks(w: World, source: nat, w': World)
    requires Tracked(w.lane, w.next) && source < SEQ_MOD && TakeNumber(w, source).1.Some?
    requires w'.lane.ssrc == w.lane.ssrc && w'.lane.notes == w.lane.notes && w'.next == TakeNumber(w, source).0.next
    requires |w'.lane.log| == |w.lane.log| + 1 && w'.lane.log[..|w.lane.log|] == w.lane.log
    requires w'.lane.log[|w.lane.log|].seqNo == TakeNumber(w, source).1.value
    requires w'.lane.queue.open <= w.lane.queue.open + 1
    ensures Tracked(w'.lane, w'.next)
  {
    hide Strays, TakeNumber;
    TakeNumberIs(w, source);
    var log, log' := w.lane.log, w'.lane.log;
    if log != [] {
      var total := log[0].seqNo + |log| + Strays(w.lane.notes, w.lane.ssrc);
      assert log'[0] == log[0] && (total % SEQ_MOD + 1) % SEQ_MOD == (total + 1) % SEQ_MOD;
      assert forall i | 0 <= i < |log| :: log'[i] == log[i];
    }
  }

  lemma RetryUndoMoves(w: World, source: nat, books: Books, bound: nat, own: bool)
    requires WorldInv(w, bound) && source < SEQ_MOD && TakeNumber(w, source).1.Some?
    requires BooksOk(books) && books.pacer.reserved == w.books.pacer.reserved && books.committed == w.books.committed
    ensures Moves(w, Undo(TakeNumberBack(TakeNumber(w, source).0.(books := books))), 0, own)
  {
    hide LaneInv, BooksOk, TakeNumber, Undo, Moves, Rollback, Shares;
    var back := TakeNumberBack(TakeNumber(w, source).0.(books := books));
    RetryMoves(w, source, books, own);
    TakeNumberKeeps(w, source, bound);
    assert LaneInv(back.lane, back.next, bound) by { BackKeepsLane(TakeNumber(w, source).0, bound); }
    UndoMoves(back, bound, own);
    MovesTwice(w, back, Undo(back), 0, 0, own);
  }

  lemma QueueMoves(w: World, id: nat, pkt: Input, own: bool)
    requires WorldInv(w, id) && w.lane.queue.active && !w.lane.queue.drop && pkt.source < SEQ_MOD
    requires own ==> pkt.noted == w.lane.ssrc
    ensures Moves(w, QueueLane(w, id, pkt).0, 1, own)
  {
    hide LaneInv, BooksOk, BookReserve, Undo, TakeNumberBack, TakeNumber, BookCancel, Moves, Span;
    var (numbered, number) := TakeNumber(w, pkt.source);
    MovesItself(w, 1, own);
    if number.Some? {
      TakeNumberElsewhere(w, pkt.source);
      var (books, r) := BookReserve(w.books, id, pkt.cls, pkt.len, pkt.allowDrop, pkt.now);
      ReserveKeepsBooks(w.books, id, pkt.cls, pkt.len, pkt.allowDrop, pkt.now);
      if pkt.fault.HeaderFault? {
        RetryUndoMoves(w, pkt.source, numbered.books, id, own);
        MoreMoves(w, Undo(TakeNumberBack(numbered)), own);
      } else if r.None? {
        RetryUndoMoves(w, pkt.source, books, id, own);
        MoreMoves(w, QueueLane(w, id, pkt).0, own);
      } else {
        var q := numbered.lane.queue;
        var e := Enqueue(q, id, number.value, pkt.noted, pkt.keyframe || q.key, pkt.len, books.pacer.rate, r.value,
                         pkt.now);
        if e.None? {
          CancelCommits(books, id, r.value);
          RetryUndoMoves(w, pkt.source, BookCancel(books, id, r.value), id, own);
          MoreMoves(w, QueueLane(w, id, pkt).0, own);
        } else {
          assert e.value.items[..|q.items|] == q.items;
          AppendMoves(w, pkt.source, id, e.value, books, own);
        }
      }
    }
  }

  lemma MoreMoves(w: World, w': World, own: bool)
    requires Moves(w, w', 0, own)
    ensures Moves(w, w', 1, own)
  {
  }

  lemma FinishMoves(w: World, bound: nat, own: bool)
    requires WorldInv(w, bound)
    ensures Moves(w, FinishLane(w), 0, own)
  {
    hide Mirrors, Ordered, SentInOrder, Framed, BooksOk, Moves, Started;
    QueueOnlyMoves(w, FinishLane(w), own);
  }

  lemma DrainMoves(w: World, valid: bool, now: int, own: bool)
    ensures Moves(w, DrainOne(w, valid, now), 0, own)
  {
    hide Moves;
    QueueOnlyMoves(w, DrainOne(w, valid, now), own);
  }

  lemma OfferMoves(w: World, id: nat, pkt: Input, own: bool)
    requires WorldInv(w, id) && pkt.source < SEQ_MOD && (own ==> pkt.noted == w.lane.ssrc)
    ensures Moves(w, Offer(w, id, pkt), 1, own)
  {
    hide WorldInv, Moves, BoundLane, AdmitLane, QueueLane, FinishLane;
    MovesItself(w, 1, own);
    MovesItself(w, 0, own);
    if !pkt.fault.Unauthorized? {
      if w.lane.screen && !w.lane.queue.active { BoundLaneKeeps(w, pkt.now, id); BoundMoves(w, pkt.now, id, own); }
      var (bounded, under) := if w.lane.screen && !w.lane.queue.active then BoundLane(w, pkt.now) else (w, true);
      if under || pkt.keyframe {
        AdmitLaneKeeps(bounded, pkt, id);
        AdmitMoves(bounded, pkt, id, own);
        var (admitted, ok) := AdmitLane(bounded, pkt);
        MovesTwice(w, bounded, admitted, 0, 0, own);
        MoreMoves(w, admitted, own);
        if ok { AfterAdmitMoves(w, admitted, id, pkt, own); }
      } else {
        MoreMoves(w, bounded, own);
      }
    }
  }

  /** Queueing an admitted packet, and closing its frame. */
  lemma AfterAdmitMoves(w: World, admitted: World, id: nat, pkt: Input, own: bool)
    requires WorldInv(admitted, id) && admitted.lane.queue.active && !admitted.lane.queue.drop && pkt.source < SEQ_MOD
    requires own ==> pkt.noted == w.lane.ssrc
    requires Moves(w, admitted, 0, own) && admitted.lane.ssrc == w.lane.ssrc
    ensures var (queued, done) := QueueLane(admitted, id, pkt); var finished := FinishLane(queued);
      Moves(w, queued, 1, own) && Moves(w, finished, 1, own) && Moves(w, BoundLane(finished, pkt.now).0, 1, own)
  {
    hide WorldInv, Moves, BoundLane, QueueLane, FinishLane;
    var queued := QueueLane(admitted, id, pkt).0;
    var finished := FinishLane(queued);
    QueueLaneKeeps(admitted, id, pkt);
    QueueMoves(admitted, id, pkt, own);
    MovesTwice(w, admitted, queued, 0, 1, own);
    FinishLaneKeeps(queued, id + 1);
    FinishMoves(queued, id + 1, own);
    MovesTwice(w, queued, finished, 1, 0, own);
    BoundLaneKeeps(finished, pkt.now, id + 1);
    BoundMoves(finished, pkt.now, id + 1, own);
    MovesTwice(w, finished, BoundLane(finished, pkt.now).0, 1, 0, own);
  }
}

/**
 One outbound video stream: its paced queue, the pacer's books and the sequence translator, as
 the egress path moves them (src/pipeline/egress.c), together with the history the claims are
 about: which packets were queued and kept, which were sent, which were rolled back.
 */
module EgressLane {
  import opened Wrappers
  import opened Pacing
  import opened SeqTranslation
  import opened PacedQueue

  const SCREEN_MAX_DELAY_US := 750_000
  const CAMERA_MAX_DELAY_US := 200_000

  // ------------------------------------------------------------------------- the books

  /** Which packets' reservations were granted, committed and cancelled, as often as they were. */
  datatype Ledger = Ledger(granted: multiset<nat>, committed: multiset<nat>, cancelled: multiset<nat>)

  /** The pacer with running totals of what was granted, committed and given back, and of all
      the changes refills and rate changes made to the balance. */
  datatype Books = Books(pacer: Bucket, granted: int, committed: int, cancelled: int, toppedUp: int, ledger: Ledger)

  /** Reserves for packet `id`. */
  function BookReserve(b: Books, id: nat, cls: PacerClass, bytes: nat, allowDrop: bool,
                       now: int): (Books, Option<Reservation>) {
    var (p, r) := Reserve(b.pacer, cls, bytes, allowDrop, now);
    (b.(pacer := p, toppedUp := b.toppedUp + p.balance - b.pacer.balance,
        granted := b.granted + (if r.Some? then Held(r.value) else 0),
        ledger := if r.Some? then b.ledger.(granted := b.ledger.granted + multiset{id}) else b.ledger), r)
  }

  function BookCommit(b: Books, id: nat, r: Reservation): Books {
    b.(pacer := Commit(b.pacer, r), committed := b.committed + Held(r),
       ledger := b.ledger.(committed := b.ledger.committed + multiset{id}))
  }

  function BookCancel(b: Books, id: nat, r: Reservation): Books {
    b.(pacer := Cancel(b.pacer, r), cancelled := b.cancelled + Held(r),
       ledger := b.ledger.(cancelled := b.ledger.cancelled + multiset{id}))
  }

  /** Cancels the reservations of packets that leave the queue unsent. */
  function CancelItems(b: Books, items: seq<Item>): Books
    decreases |items|
  {
    if items == [] then b else CancelItems(BookCancel(b, items[0].packet, items[0].reservation), items[1..])
  }

  ghost predicate BooksOk(b: Books) {
    && BucketInv(b.pacer)
    && b.granted == b.pacer.reserved + b.committed + b.cancelled
    && b.pacer.balance == b.toppedUp - b.committed
  }

  lemma {:induction false} CancelItemsIs(b: Books, items: seq<Item>)
    ensures var held, b' := HeldBytes(items), CancelItems(b, items);
      b' ==
        b.(pacer := b.pacer.(reserved := b.pacer.reserved - held), cancelled := b.cancelled + held,
           ledger := b'.ledger)
    decreases |items|
  {
    if items != [] { CancelItemsIs(BookCancel(b, items[0].packet, items[0].reservation), items[1..]); }
  }

  // -------------------------------------------------------------------------- the lane

  /** A packet that was queued and not rolled back, with the number and frame it was given. */
  datatype Logged = Logged(packet: nat, seqNo: nat, frame: nat)

  /** A packet that was accepted for sending, with the bytes charged for it. */
  datatype Sent = Sent(packet: nat, charged: nat)

  /** What a rolled-back frame of `count` packets was noted under, and whether it was rolled back
      late: after the stream had kept a packet. */
  datatype Note = Note(ssrc: Ssrc, count: nat, late: bool)

  /** `ssrc` is the SSRC in the headers of the stream's packets.  The history: kept
      and sent packets, and the packets and notes of rolled-back frames. */
  datatype Lane = Lane(
    queue: Queue, ssrc: Ssrc, screen: bool, frame: nat,
    log: seq<Logged>, sent: seq<Sent>, rolled: set<nat>, notes: seq<Note>)

  datatype World = World(lane: Lane, books: Books, next: Numbering)

  datatype Fault = Clean | Unauthorized | HeaderFault

  /** What the egress path is asked to send.  `noted` is the SSRC the route announces for the
      stream, which need not be the one in the packet's header.  `HeaderFault` covers the refusals
      after numbering: header rewriting, MID writing and encryption. */
  datatype Input = Input(
    ts: nat, marker: bool, keyframe: bool, source: nat, noted: Ssrc, len: nat, cls: PacerClass, allowDrop: bool,
    fault: Fault, now: int)

  function Packets(log: seq<Logged>): set<nat> { set i | 0 <= i < |log| :: log[i].packet }

  /** Records that the queue's open frame was discarded: the history loses its packets, and the
      frame's note is the first nonzero SSRC its packets were queued with. */
  function Forget(lane: Lane, dropped: seq<Item>): Lane {
    var n := |dropped|;
    if n == 0 || n > |lane.log| then lane
    else
      lane.(log := lane.log[..|lane.log| - n], rolled := lane.rolled + Packets(lane.log[|lane.log| - n..]),
            notes := lane.notes + [Note(NotedSsrc(dropped, 0), n, n < |lane.log|)])
  }

  /** Takes the numbers of a rolled-back frame back from the translator. */
  function Invalidate(w: World): World {
    var q := w.lane.queue;
    if q.rolledCount == 0 then w
    else
      World(w.lane.(queue := q.(rolledSsrc := 0, rolledCount := 0)), w.books,
            if q.rolledSsrc != 0 then Rollback(w.next, q.rolledSsrc, q.rolledCount) else w.next)
  }

  /** The undo of every failure path: roll the open frame back, refuse its remaining packets and
      take its numbers back. */
  function Undo(w: World): World {
    var q := w.lane.queue;
    var dropped := OpenItems(q);
    Invalidate(World(Forget(w.lane, dropped).(queue := RejectFrame(RollbackFrame(q))), CancelItems(w.books, dropped),
                     w.next))
  }

  /** Numbers a packet under the SSRC in its header. */
  function TakeNumber(w: World, source: nat): (World, Option<nat>) {
    var (next, number) := Translate(w.next, w.lane.ssrc, source);
    (World(w.lane, w.books, next), number)
  }

  function TakeNumberBack(w: World): World { w.(next := Rollback(w.next, w.lane.ssrc, 1)) }

  /** Bounds the backlog and cancels what it drops. */
  function BoundLane(w: World, now: int): (World, bool) {
    var q := w.lane.queue;
    var (q', under) := if q.ready > |q.items| then (q, false) else BoundBacklog(q, SCREEN_MAX_DELAY_US, now);
    var dropped := if |q'.items| <= |q.items| then q.items[..|q.items| - |q'.items|] else [];
    (World(w.lane.(queue := q'), CancelItems(w.books, dropped), w.next), under)
  }

  predicate Abandons(w: World, pkt: Input) {
    w.lane.queue.active && w.lane.queue.timestamp != pkt.ts && w.lane.queue.open > 0
  }

  function AdmitQueue(w: World, pkt: Input): (Queue, bool) {
    Admit(w.lane.queue, pkt.ts, pkt.marker, pkt.keyframe, !w.lane.screen, MaxDelay(w.lane.screen), pkt.now)
  }

  /** Admits a packet of a frame; an unfinished older frame is rolled back first. */
  function AdmitLane(w: World, pkt: Input): (World, bool) {
    var q := w.lane.queue;
    var (q', ok) := AdmitQueue(w, pkt);
    var abandons := q.active && q.timestamp != pkt.ts;
    var dropped := if abandons then OpenItems(q) else [];
    var frame := if StartsFrame(q, pkt.ts) then w.lane.frame + 1 else w.lane.frame;
    var lane := Forget(w.lane, dropped).(queue := q', frame := frame);
    (Invalidate(World(lane, CancelItems(w.books, dropped), w.next)), ok)
  }

  /** Pays for and queues a packet that has its number, or undoes everything done for it. */
  function PayLane(w: World, number: nat, id: nat, pkt: Input): (World, bool) {
    var (books, r) := BookReserve(w.books, id, pkt.cls, pkt.len, pkt.allowDrop, pkt.now);
    if r.None? then (Undo(TakeNumberBack(w.(books := books))), false)
    else
      var q := w.lane.queue;
      var e := Enqueue(q, id, number, pkt.noted, pkt.keyframe || q.key, pkt.len, books.pacer.rate, r.value, pkt.now);
      if e.None? then (Undo(TakeNumberBack(w.(books := BookCancel(books, id, r.value)))), false)
      else
        (World(w.lane.(queue := e.value, log := w.lane.log + [Logged(id, number, w.lane.frame)]), books, w.next),
         true)
  }

  /** Numbers, pays for and queues an admitted packet. */
  function QueueLane(w: World, id: nat, pkt: Input): (World, bool) {
    var (numbered, number) := TakeNumber(w, pkt.source);
    if number.None? then (w, false)
    else if pkt.fault.HeaderFault? then (Undo(TakeNumberBack(numbered)), false)
    else PayLane(numbered, number.value, id, pkt)
  }

  function FinishLane(w: World): World { w.(lane := w.lane.(queue := FinishFrame(w.lane.queue))) }

  /** The whole egress path of one packet: bound the backlog, admit, number, pay for, queue; the
      marker closes the frame, and a screen's backlog is then bounded again. */
  function Offer(w: World, id: nat, pkt: Input): World {
    if pkt.fault.Unauthorized? then w
    else
      var (bounded, under) := if w.lane.screen && !w.lane.queue.active then BoundLane(w, pkt.now) else (w, true);
      if !under && !pkt.keyframe then bounded
      else
        var (admitted, ok) := AdmitLane(bounded, pkt);
        if !ok then admitted
        else
          var (queued, done) := QueueLane(admitted, id, pkt);
          if !done || !pkt.marker then queued
          else
            var finished := FinishLane(queued);
            if w.lane.screen then BoundLane(finished, pkt.now).0 else finished
  }

  /** One round of the drain loop: a packet at the head is sent and paid for, or is stale and
      its reservation is cancelled. */
  function DrainOne(w: World, valid: bool, now: int): World {
    var q := w.lane.queue;
    if q.ready == 0 || q.items == [] || (valid && q.items[0].release > now) then w
    else
      var item, rest := q.items[0], Emptied(Pop(q));
      if valid then World(w.lane.(queue := rest, sent := w.lane.sent + [Sent(item.packet, Held(item.reservation))]),
                          BookCommit(w.books, item.packet, item.reservation), w.next)
      else World(w.lane.(queue := rest), BookCancel(w.books, item.packet, item.reservation), w.next)
  }

  // ------------------------------------------------------------------------- invariant

  /** The last entries of the history are the queued packets. */
  ghost predicate Mirrors(items: seq<Item>, log: seq<Logged>) {
    && |items| <= |log|
    && forall i | 0 <= i < |items| ::
         items[i].packet == log[|log| - |items| + i].packet && items[i].seqNo == log[|log| - |items| + i].seqNo
  }

  /** Packets are logged in the order they were queued in, rolled-back ones are not there. */
  ghost predicate Ordered(log: seq<Logged>, rolled: set<nat>, bound: nat) {
    && (forall i, j | 0 <= i < j < |log| :: log[i].packet < log[j].packet)
    && (forall i | 0 <= i < |log| :: log[i].packet < bound && log[i].packet !in rolled)
    && (forall p | p in rolled :: p < bound)
  }

  /** No further packet of frame `f` can be queued. */
  predicate FrameDone(active: bool, current: nat, f: nat) { if active then f < current else f <= current }

  /** Everything but the open frame belongs to finished frames. */
  ghost predicate Framed(log: seq<Logged>, open: nat, active: bool, current: nat) {
    && open <= |log|
    && (forall i | 0 <= i < |log| - open :: FrameDone(active, current, log[i].frame))
    && (forall i | |log| - open <= i < |log| :: log[i].frame == current)
  }

  ghost predicate IsGone(log: seq<Logged>, gone: int, packet: nat)
  {
    exists i :: 0 <= i < gone <= |log| && log[i].packet == packet
  }

  /** Sent packets are among the first `gone` of the history, in order, each once. */
  ghost predicate SentInOrder(sent: seq<Sent>, log: seq<Logged>, gone: int) {
    && (forall i, j | 0 <= i < j < |sent| :: sent[i].packet < sent[j].packet)
    && (forall i | 0 <= i < |sent| :: IsGone(log, gone, sent[i].packet))
  }

  /** A stream with kept packets is known to the translator. */
  ghost predicate Started(lane: Lane, next: Numbering) { lane.log != [] ==> lane.ssrc in next }

  ghost predicate LaneInv(lane: Lane, next: Numbering, bound: nat) {
    && QueueInv(lane.queue) && (lane.queue.drop ==> lane.queue.open == 0)
    && lane.queue.rolledCount == 0 && lane.queue.rolledSsrc == 0
    && Started(lane, next)
    && Mirrors(lane.queue.items, lane.log) && Ordered(lane.log, lane.rolled, bound)
    && Framed(lane.log, lane.queue.open, lane.queue.active, lane.frame)
    && SentInOrder(lane.sent, lane.log, |lane.log| - |lane.queue.items|)
  }

  // -------------------------------------------------------------------------- history

  lemma OrderedForget(log: seq<Logged>, rolled: set<nat>, n: nat, bound: nat)
    requires Ordered(log, rolled, bound) && n <= |log|
    ensures Ordered(log[..|log| - n], rolled + Packets(log[|log| - n..]), bound)
  {
    var m := |log| - n;
    var lost := Packets(log[m..]);
    forall i | 0 <= i < m ensures log[i].packet !in lost {
      assert forall j | 0 <= j < n :: log[m..][j] == log[m + j];
    }
    forall p | p in lost ensures p < bound {
      var j :| 0 <= j < n && log[m..][j].packet == p;
      assert log[m + j].packet == p;
    }
  }

  lemma MirrorsForget(items: seq<Item>, log: seq<Logged>, n: nat)
    requires Mirrors(items, log) && n <= |items|
    ensures Mirrors(items[..|items| - n], log[..|log| - n])
  {
  }

  lemma SentForget(sent: seq<Sent>, log: seq<Logged>, gone: nat, n: nat)
    requires SentInOrder(sent, log, gone) && gone + n <= |log|
    ensures SentInOrder(sent, log[..|log| - n], gone)
  {
    forall i | 0 <= i < |sent| ensures IsGone(log[..|log| - n], gone, sent[i].packet) {
      assert IsGone(log, gone, sent[i].packet);
      var j :| 0 <= j < gone <= |log| && log[j].packet == sent[i].packet;
      assert log[..|log| - n][j].packet == sent[i].packet;
    }
  }

  lemma MirrorsSize(items: seq<Item>, log: seq<Logged>)
    requires Mirrors(items, log)
    ensures |items| <= |log|
  {
  }

  ghost predicate SameButHistory(a: Lane, b: Lane) {
    b.queue == a.queue && b.ssrc == a.ssrc && b.screen == a.screen && b.frame == a.frame && b.sent == a.sent
  }

  lemma ForgetIs(lane: Lane, dropped: seq<Item>)
    requires 0 < |dropped| <= |lane.log|
    ensures var m, after := |lane.log| - |dropped|, Forget(lane, dropped);
      && SameButHistory(lane, after)
      && after.log == lane.log[..m] && after.rolled == lane.rolled + Packets(lane.log[m..])
      && after.notes == lane.notes + [Note(NotedSsrc(dropped, 0), |dropped|, |dropped| < |lane.log|)]
  {
    hide Packets, NotedSsrc;
  }

  lemma RollbackKeepsStreams(m: Numbering, ssrc: Ssrc, n: nat)
    ensures forall u :: u in Rollback(m, ssrc, n) <==> u in m
  {
  }

  lemma QueueSizes(q: Queue)
    requires QueueInv(q)
    ensures |q.items| == q.ready + q.open <= CAPACITY && (q.open > 0 ==> q.active)
  {
  }

  // ----------------------------------------------------------------------- lane steps

  /** What a lane leaves alone in the shared pacer and translator: what it owes the pacer is what
      its own packets hold, and it makes no other stream known. */
  ghost predicate Shares(w: World, w': World) {
    && w'.lane.ssrc == w.lane.ssrc && w'.lane.screen == w.lane.screen
    && w'.books.pacer.reserved - HeldBytes(w'.lane.queue.items) ==
         w.books.pacer.reserved - HeldBytes(w.lane.queue.items)
    && w'.books.committed - ChargedBytes(w'.lane.sent) == w.books.committed - ChargedBytes(w.lane.sent)
    && (forall u | u != w.lane.ssrc :: u in w'.next <==> u in w.next)
  }

  function ChargedBytes(sent: seq<Sent>): nat {
    if sent == [] then 0 else ChargedBytes(sent[..|sent| - 1]) + sent[|sent| - 1].charged
  }

  ghost predicate WorldInv(w: World, bound: nat) { LaneInv(w.lane, w.next, bound) && BooksOk(w.books) }

  /** The open frame, which a rollback drops. */
  function OpenItems(q: Queue): seq<Item> { if q.open <= |q.items| then q.items[|q.items| - q.open..] else [] }

  lemma OpenIs(q: Queue)
    requires QueueInv(q)
    ensures OpenItems(q) == q.items[q.ready..] && |OpenItems(q)| == q.open
  {
  }

  /** Dropping the open frame from the queue and from the history. */
  lemma ForgetKeepsLane(lane: Lane, next: Numbering, bound: nat)
    requires LaneInv(lane, next, bound) && lane.queue.open > 0
    ensures |OpenItems(lane.queue)| == lane.queue.open <= |lane.log|
    ensures var after := Forget(lane, OpenItems(lane.queue)); var kept := lane.queue.items[..lane.queue.ready];
      && SameButHistory(lane, after)
      && Mirrors(kept, after.log) && Ordered(after.log, after.rolled, bound)
      && Framed(after.log, 0, lane.queue.active, lane.frame)
      && SentInOrder(lane.sent, after.log, |after.log| - |kept|)
  {
    hide QueueInv, Ordered, Mirrors, SentInOrder, Forget, NotedSsrc, OpenItems, Framed, Packets, Started;
    QueueSizes(lane.queue);
    OpenIs(lane.queue);
    MirrorsSize(lane.queue.items, lane.log);
    ForgetIs(lane, OpenItems(lane.queue));
    HistoryForgets(lane, lane.queue.items, lane.queue.open, bound);
  }

  lemma HistoryForgets(lane: Lane, items: seq<Item>, n: nat, bound: nat)
    requires Mirrors(items, lane.log) && Ordered(lane.log, lane.rolled, bound) && n <= |items| <= |lane.log|
    requires Framed(lane.log, n, lane.queue.active, lane.frame)
    requires SentInOrder(lane.sent, lane.log, |lane.log| - |items|)
    ensures var m := |lane.log| - n;
      && Mirrors(items[..|items| - n], lane.log[..m])
      && Ordered(lane.log[..m], lane.rolled + Packets(lane.log[m..]), bound)
      && Framed(lane.log[..m], 0, lane.queue.active, lane.frame)
      && SentInOrder(lane.sent, lane.log[..m], |lane.log| - |items|)
  {
    hide Ordered, Mirrors, SentInOrder, Framed, Packets;
    MirrorsForget(items, lane.log, n);
    SentForget(lane.sent, lane.log, |lane.log| - |items|, n);
    OrderedForget(lane.log, lane.rolled, n, bound);
    FramedForget(lane.log, n, lane.queue.active, lane.frame);
  }

  lemma FramedForget(log: seq<Logged>, open: nat, active: bool, current: nat)
    requires Framed(log, open, active, current)
    ensures open <= |log| && Framed(log[..|log| - open], 0, active, current)
  {
  }

  /** A rolled-back queue in place, with its note cleared and numbers given back wherever. */
  lemma InvalidateKeeps(w: World, lane: Lane, q: Queue, books: Books, bound: nat)
    requires WorldInv(w, bound) && w.lane.queue.open > 0
    requires lane == Forget(w.lane, OpenItems(w.lane.queue)).(queue := q, frame := lane.frame)
    requires QueueInv(q) && q.items == w.lane.queue.items[..w.lane.queue.ready] && q.open == 0
    requires q.rolledCount == w.lane.queue.open
    requires BooksOk(books) && books == CancelItems(w.books, OpenItems(w.lane.queue))
    requires Framed(lane.log, 0, q.active, lane.frame)
    ensures var after := Invalidate(World(lane, books, w.next));
      WorldInv(after, bound) && Shares(w, after) && after.lane.queue == q.(rolledSsrc := 0, rolledCount := 0)
  {
    hide QueueInv, Ordered, Mirrors, SentInOrder, BooksOk, Forget, Rollback, OpenItems, Framed, CancelItems;
    ForgetKeepsLane(w.lane, w.next, bound);
    RollbackKeepsStreams(w.next, q.rolledSsrc, q.rolledCount);
    NoteCleared(q);
    RolledBytes(w, bound);
  }

  lemma RolledBytes(w: World, bound: nat)
    requires WorldInv(w, bound)
    ensures var books := CancelItems(w.books, OpenItems(w.lane.queue));
      && books.committed == w.books.committed
      && books.pacer.reserved - HeldBytes(w.lane.queue.items[..w.lane.queue.ready]) ==
           w.books.pacer.reserved - HeldBytes(w.lane.queue.items)
  {
    hide HeldBytes, Mirrors, Ordered, SentInOrder, Framed, Started, CancelItems;
    var items, ready := w.lane.queue.items, w.lane.queue.ready;
    OpenIs(w.lane.queue);
    CancelItemsIs(w.books, OpenItems(w.lane.queue));
    assert items == items[..ready] + items[ready..];
    HeldConcat(items[..ready], items[ready..]);
  }

  lemma NoteCleared(q: Queue)
    requires QueueInv(q)
    ensures QueueInv(q.(rolledSsrc := 0, rolledCount := 0))
  {
  }

  lemma CancelKeepsBooks(b: Books, items: seq<Item>)
    requires BooksOk(b)
    ensures BooksOk(CancelItems(b, items))
  {
    hide HeldBytes, CancelItems;
    CancelItemsIs(b, items);
  }

  lemma ForgetNothing(lane: Lane)
    ensures Forget(lane, []) == lane
  {
  }

  /** An undo keeps everything that was kept before and gives back what the open frame held. */
  lemma UndoKeeps(w: World, bound: nat)
    requires WorldInv(w, bound)
    ensures WorldInv(Undo(w), bound) && Shares(w, Undo(w))
  {
    hide QueueInv, Ordered, Mirrors, SentInOrder, BooksOk, Forget, Rollback, Framed, NotedSsrc, RollbackFrame,
        CancelItems, Started;
    var q := w.lane.queue;
    QueueSizes(q);
    RollbackKeeps(q);
    RollbackIs(q);
    RejectKeeps(RollbackFrame(q));
    CancelKeepsBooks(w.books, OpenItems(q));
    if q.open == 0 {
      assert OpenItems(q) == [];
      ForgetNothing(w.lane);
      NothingCancelled(w.books);
      StartedIgnores(w.lane, RejectFrame(RollbackFrame(q)), w.next);
    } else {
      ForgetKeepsLane(w.lane, w.next, bound);
      InvalidateKeeps(w, Forget(w.lane, OpenItems(q)).(queue := RejectFrame(RollbackFrame(q))),
                      RejectFrame(RollbackFrame(q)),
                      CancelItems(w.books, OpenItems(q)), bound);
    }
  }

  lemma NothingCancelled(b: Books)
    ensures CancelItems(b, []) == b
  {
  }

  /** How a rollback touches the open frame and the rollback note. */
  lemma RollbackIs(q: Queue)
    requires QueueInv(q)
    ensures var r := RollbackFrame(q);
      && r.open == 0 && r.active == q.active
      && (q.open == 0 ==> r == q)
      && (q.open > 0 ==> r.rolledCount == q.open && r.rolledSsrc == NotedSsrc(q.items[q.ready..], q.rolledSsrc))
  {
    hide NotedSsrc, Closed, Spaced;
  }

  lemma RejectKeeps(q: Queue)
    requires QueueInv(q)
    ensures QueueInv(RejectFrame(q))
  {
  }

  /** Dropping whole frames at the head changes nothing in the history. */
  lemma TrimKeepsLane(lane: Lane, next: Numbering, bound: nat, q: Queue, n: nat)
    requires LaneInv(lane, next, bound) && QueueInv(q) && DroppedFrames(lane.queue, q, n)
    ensures LaneInv(lane.(queue := q), next, bound)
  {
    hide QueueInv, Ordered, Mirrors, SentInOrder, Framed, SameButRelease, Started;
    var items, log := lane.queue.items, lane.log;
    MirrorsSize(items, log);
    MirrorsDrop(items, q.items, log, n);
    SentDrop(lane.sent, log, |log| - |items|, n);
    SameHeldRespaced(q.items, items[n..]);
    assert Started(lane.(queue := q), next) by { StartedIgnores(lane, q, next); }
  }

  lemma StartedIgnores(lane: Lane, q: Queue, next: Numbering)
    requires Started(lane, next)
    ensures Started(lane.(queue := q), next)
  {
  }

  /** The bytes held by the packets that stay. */
  lemma HeldAfterTrim(items: seq<Item>, left: seq<Item>, n: nat)
    requires n <= |items| && SameButRelease(left, items[n..])
    ensures |left| == |items| - n && HeldBytes(items) == HeldBytes(items[..n]) + HeldBytes(left)
  {
    hide HeldBytes;
    assert items == items[..n] + items[n..];
    HeldConcat(items[..n], items[n..]);
    SameHeldRespaced(left, items[n..]);
  }

  lemma BoundLaneKeeps(w: World, now: int, bound: nat)
    requires WorldInv(w, bound) && !w.lane.queue.active
    ensures w.lane.queue.ready <= |w.lane.queue.items|
    ensures var (w', under) := BoundLane(w, now); WorldInv(w', bound) && Shares(w, w') && !w'.lane.queue.active
  {
    hide BoundBacklog, BooksOk, HeldBytes, SameButRelease, CancelItems, LaneInv;
    var q := w.lane.queue;
    LaneHasQueue(w, bound);
    QueueSizes(q);
    hide QueueInv;
    var n := BoundBacklogKeeps(q, SCREEN_MAX_DELAY_US, now);
    var q' := BoundBacklog(q, SCREEN_MAX_DELAY_US, now).0;
    HeldAfterTrim(q.items, q'.items, n);
    CancelItemsIs(w.books, q.items[..n]);
    CancelKeepsBooks(w.books, q.items[..n]);
    TrimKeepsLane(w.lane, w.next, bound, q', n);
  }

  lemma LaneHasQueue(w: World, bound: nat)
    requires WorldInv(w, bound)
    ensures QueueInv(w.lane.queue)
  {
  }

  lemma MirrorsDrop(items: seq<Item>, left: seq<Item>, log: seq<Logged>, n: nat)
    requires Mirrors(items, log) && n <= |items| && SameButRelease(left, items[n..])
    ensures Mirrors(left, log)
  {
    assert forall i | 0 <= i < |left| :: left[i].packet == items[n + i].packet && left[i].seqNo == items[n + i].seqNo;
  }

  lemma SentDrop(sent: seq<Sent>, log: seq<Logged>, gone: nat, n: nat)
    requires SentInOrder(sent, log, gone) && gone + n <= |log|
    ensures SentInOrder(sent, log, gone + n)
  {
    forall i | 0 <= i < |sent| ensures IsGone(log, gone + n, sent[i].packet) {
      assert IsGone(log, gone, sent[i].packet);
    }
  }

  lemma SameHeldRespaced(a: seq<Item>, b: seq<Item>)
    requires SameButRelease(a, b)
    ensures |a| == |b| && HeldBytes(a) == HeldBytes(b)
  {
    SameHeld(a, b);
  }

  function MaxDelay(screen: bool): int { if screen then SCREEN_MAX_DELAY_US else CAMERA_MAX_DELAY_US }

  lemma AdmitPlainKeeps(w: World, pkt: Input, bound: nat)
    requires WorldInv(w, bound) && !Abandons(w, pkt)
    ensures WorldInv(AdmitLane(w, pkt).0, bound) && Shares(w, AdmitLane(w, pkt).0)
    ensures var q' := AdmitQueue(w, pkt).0;
      AdmitLane(w, pkt).0 == w.(lane := w.lane.(queue := q', frame := AdmitLane(w, pkt).0.lane.frame))
  {
    hide QueueInv, Ordered, Mirrors, SentInOrder, BooksOk, Forget, Framed, Admit, CancelItems;
    var q, q' := w.lane.queue, AdmitQueue(w, pkt).0;
    QueueSizes(q);
    AdmitKeeps(q, pkt.ts, pkt.marker, pkt.keyframe, !w.lane.screen, MaxDelay(w.lane.screen), pkt.now);
    AdmitIs(q, pkt.ts, pkt.marker, pkt.keyframe, !w.lane.screen, MaxDelay(w.lane.screen), pkt.now);
    NothingCancelled(w.books);
    assert q.items[|q.items|..] == [];
    ForgetNothing(w.lane);
    assert q.open == 0 ==> q.items[..q.ready] == q.items;
    if StartsFrame(q, pkt.ts) { FramedStart(w.lane.log, q.active, w.lane.frame, q'.active); }
    else { FramedEnd(w.lane.log, q.open, q.active, w.lane.frame); }
  }

  lemma AdmitAbandonKeeps(w: World, pkt: Input, bound: nat)
    requires WorldInv(w, bound) && Abandons(w, pkt)
    ensures WorldInv(AdmitLane(w, pkt).0, bound) && Shares(w, AdmitLane(w, pkt).0)
    ensures AdmitLane(w, pkt).0.lane.queue == AdmitQueue(w, pkt).0.(rolledSsrc := 0, rolledCount := 0)
  {
    hide QueueInv, Ordered, Mirrors, SentInOrder, BooksOk, Forget, Rollback, Framed, NotedSsrc, Admit, CancelItems,
        Started;
    var q, q' := w.lane.queue, AdmitQueue(w, pkt).0;
    QueueSizes(q);
    AdmitKeeps(q, pkt.ts, pkt.marker, pkt.keyframe, !w.lane.screen, MaxDelay(w.lane.screen), pkt.now);
    AdmitIs(q, pkt.ts, pkt.marker, pkt.keyframe, !w.lane.screen, MaxDelay(w.lane.screen), pkt.now);
    CancelKeepsBooks(w.books, OpenItems(q));
    ForgetKeepsLane(w.lane, w.next, bound);
    var lane := Forget(w.lane, OpenItems(q)).(queue := q', frame := w.lane.frame + 1);
    FramedStart(lane.log, q.active, w.lane.frame, q'.active);
    InvalidateKeeps(w, lane, q', CancelItems(w.books, OpenItems(q)), bound);
  }

  lemma AdmitLaneKeeps(w: World, pkt: Input, bound: nat)
    requires WorldInv(w, bound)
    ensures var (w', ok) := AdmitLane(w, pkt);
      WorldInv(w', bound) && Shares(w, w') && (ok ==> w'.lane.queue.active && !w'.lane.queue.drop)
  {
    hide QueueInv, Ordered, Mirrors, SentInOrder, BooksOk, Framed, Admit, Shares, Started;
    if Abandons(w, pkt) { AdmitAbandonKeeps(w, pkt, bound); } else { AdmitPlainKeeps(w, pkt, bound); }
    AdmitKeeps(w.lane.queue, pkt.ts, pkt.marker, pkt.keyframe, !w.lane.screen, MaxDelay(w.lane.screen), pkt.now);
  }

  /** How an admission touches the open frame and the rollback note. */
  lemma AdmitIs(q: Queue, ts: nat, marker: bool, keyframe: bool, dropOnDelay: bool, maxDelay: int, now: int)
    requires QueueInv(q) && (q.drop ==> q.open == 0)
    ensures var q' := Admit(q, ts, marker, keyframe, dropOnDelay, maxDelay, now).0;
      && q'.open == (if StartsFrame(q, ts) then 0 else q.open)
      && (!StartsFrame(q, ts) && q.open > 0 ==> q'.active)
      && (q.active && q.timestamp != ts && q.open > 0 ==>
            q'.rolledCount == q.open && q'.rolledSsrc == NotedSsrc(q.items[|q.items| - q.open..], q.rolledSsrc))
      && (!(q.active && q.timestamp != ts && q.open > 0) ==>
            q'.rolledCount == q.rolledCount && q'.rolledSsrc == q.rolledSsrc)
  {
    hide ProjectedDelay, NotedSsrc, Closed, Spaced;
  }

  /** Starting a frame leaves every logged packet in a finished frame. */
  lemma FramedStart(log: seq<Logged>, was: bool, current: nat, active: bool)
    requires Framed(log, 0, was, current)
    ensures Framed(log, 0, active, current + 1)
  {
  }

  lemma FramedEnd(log: seq<Logged>, open: nat, active: bool, current: nat)
    requires Framed(log, open, active, current)
    ensures Framed(log, 0, false, current) && (open == 0 ==> Framed(log, open, false, current))
  {
  }

  // ------------------------------------------------------------- queueing and draining

  lemma SharesTwice(a: World, b: World, c: World)
    requires Shares(a, b) && Shares(b, c)
    ensures Shares(a, c)
  {
  }

  lemma LaterBound(w: World, bound: nat, later: nat)
    requires WorldInv(w, bound) && bound <= later
    ensures WorldInv(w, later)
  {
  }

  lemma ReserveKeepsBooks(b: Books, id: nat, cls: PacerClass, bytes: nat, allowDrop: bool, now: int)
    requires BooksOk(b)
    ensures var (b', r) := BookReserve(b, id, cls, bytes, allowDrop, now);
      && BooksOk(b') && b'.committed == b.committed
      && b'.pacer.reserved == b.pacer.reserved + (if r.Some? then Held(r.value) else 0)
      && (r.Some? ==>
            && r.value.active && BooksOk(BookCancel(b', id, r.value))
            && BookCancel(b', id, r.value).pacer.reserved == b.pacer.reserved)
  {
    ReserveHolds(b.pacer, cls, bytes, allowDrop, now);
  }

  /** A number handed out, taken back or not, is the lane's own business. */
  lemma TakeNumberKeeps(w: World, source: nat, bound: nat)
    requires WorldInv(w, bound) && TakeNumber(w, source).1.Some?
    ensures var w' := TakeNumber(w, source).0;
      && WorldInv(w', bound) && Shares(w, w') && w'.lane.ssrc in w'.next && w'.lane.queue == w.lane.queue
      && w'.books == w.books
  {
    hide QueueInv, Ordered, Mirrors, SentInOrder, BooksOk, Framed;
  }

  lemma BackKeepsLane(w: World, bound: nat)
    requires LaneInv(w.lane, w.next, bound)
    ensures LaneInv(TakeNumberBack(w).lane, TakeNumberBack(w).next, bound)
  {
    hide QueueInv, Mirrors, Ordered, SentInOrder, Framed;
  }

  lemma UndoRetryKeeps(w: World, books: Books, bound: nat)
    requires WorldInv(w, bound) && BooksOk(books)
    requires books.pacer.reserved == w.books.pacer.reserved && books.committed == w.books.committed
    ensures var w' := Undo(TakeNumberBack(w.(books := books))); WorldInv(w', bound + 1) && Shares(w, w')
  {
    hide BooksOk, Undo, Rollback, QueueInv, Mirrors, Ordered, Framed, SentInOrder;
    var w' := TakeNumberBack(w.(books := books));
    RollbackKeepsStreams(w.next, w.lane.ssrc, 1);
    UndoKeeps(w', bound);
    LaterBound(Undo(w'), bound, bound + 1);
  }

  lemma MirrorsAppend(items: seq<Item>, log: seq<Logged>, item: Item, entry: Logged)
    requires Mirrors(items, log) && item.packet == entry.packet && item.seqNo == entry.seqNo
    ensures Mirrors(items + [item], log + [entry])
  {
  }

  lemma OrderedAppend(log: seq<Logged>, rolled: set<nat>, bound: nat, entry: Logged)
    requires Ordered(log, rolled, bound) && entry.packet == bound
    ensures Ordered(log + [entry], rolled, bound + 1)
  {
  }

  lemma FramedAppend(log: seq<Logged>, open: nat, current: nat, entry: Logged)
    requires Framed(log, open, true, current) && entry.frame == current
    ensures Framed(log + [entry], open + 1, true, current)
  {
  }

  lemma SentAppend(sent: seq<Sent>, log: seq<Logged>, gone: int, entry: Logged)
    requires SentInOrder(sent, log, gone)
    ensures SentInOrder(sent, log + [entry], gone)
  {
    forall i | 0 <= i < |sent| ensures IsGone(log + [entry], gone, sent[i].packet) {
      assert IsGone(log, gone, sent[i].packet);
      var j :| 0 <= j < gone <= |log| && log[j].packet == sent[i].packet;
      assert (log + [entry])[j].packet == sent[i].packet;
    }
  }

  /** A queued packet goes behind the others, in the queue and in the history. */
  lemma AppendKeeps(w: World, number: nat, id: nat, pkt: Input, books: Books, r: Reservation, q: Queue)
    requires WorldInv(w, id) && w.lane.ssrc in w.next && w.lane.queue.active && !w.lane.queue.drop
    requires BooksOk(books) && books.committed == w.books.committed
    requires books.pacer.reserved == w.books.pacer.reserved + Held(r)
    requires Enqueue(w.lane.queue, id, number, pkt.noted, pkt.keyframe || w.lane.queue.key, pkt.len,
                     books.pacer.rate, r, pkt.now) == Some(q)
    ensures var w' := World(w.lane.(queue := q, log := w.lane.log + [Logged(id, number, w.lane.frame)]), books, w.next);
      WorldInv(w', id + 1) && Shares(w, w')
  {
    hide QueueInv, Ordered, Mirrors, SentInOrder, BooksOk, Framed, Span;
    var entry, item := Logged(id, number, w.lane.frame), Last(q.items);
    EnqueueKeeps(w.lane.queue, id, number, pkt.noted, pkt.keyframe || w.lane.queue.key, pkt.len, books.pacer.rate, r,
                 pkt.now);
    MirrorsAppend(w.lane.queue.items, w.lane.log, item, entry);
    OrderedAppend(w.lane.log, w.lane.rolled, id, entry);
    FramedAppend(w.lane.log, w.lane.queue.open, w.lane.frame, entry);
    SentAppend(w.lane.sent, w.lane.log, |w.lane.log| - |w.lane.queue.items|, entry);
    HeldConcat(w.lane.queue.items, [item]);
    HeldOne(item);
  }

  lemma HeldOne(item: Item)
    ensures HeldBytes([item]) == Held(item.reservation)
  {
    assert [item][1..] == [];
  }

  lemma PayLaneKeeps(w: World, number: nat, id: nat, pkt: Input)
    requires WorldInv(w, id) && w.lane.ssrc in w.next && w.lane.queue.active && !w.lane.queue.drop
    ensures var (w', done) := PayLane(w, number, id, pkt); WorldInv(w', id + 1) && Shares(w, w')
  {
    hide WorldInv, BooksOk, BookReserve, Undo, TakeNumberBack, Enqueue, BookCancel;
    assert BooksOk(w.books) by { WorldHasBooks(w, id); }
    var (books, r) := BookReserve(w.books, id, pkt.cls, pkt.len, pkt.allowDrop, pkt.now);
    ReserveKeepsBooks(w.books, id, pkt.cls, pkt.len, pkt.allowDrop, pkt.now);
    if r.None? {
      UndoRetryKeeps(w, books, id);
    } else {
      var e := Enqueue(w.lane.queue, id, number, pkt.noted, pkt.keyframe || w.lane.queue.key, pkt.len,
                       books.pacer.rate, r.value, pkt.now);
      if e.None? {
        assert BookCancel(books, id, r.value).committed == books.committed by { CancelCommits(books, id, r.value); }
        UndoRetryKeeps(w, BookCancel(books, id, r.value), id);
      } else {
        AppendKeeps(w, number, id, pkt, books, r.value, e.value);
      }
    }
  }

  /** Whatever fails, the lane is consistent afterwards. */
  lemma QueueLaneKeeps(w: World, id: nat, pkt: Input)
    requires WorldInv(w, id) && w.lane.queue.active && !w.lane.queue.drop
    ensures var (w', done) := QueueLane(w, id, pkt); WorldInv(w', id + 1) && Shares(w, w')
  {
    hide WorldInv, Shares, Undo, TakeNumber, PayLane, BooksOk;
    LaterBound(w, id, id + 1);
    SharesItself(w);
    var (numbered, number) := TakeNumber(w, pkt.source);
    if number.Some? {
      TakeNumberKeeps(w, pkt.source, id);
      WorldHasBooks(numbered, id);
      if pkt.fault.HeaderFault? {
        UndoRetryKeeps(numbered, numbered.books, id);
        SharesTwice(w, numbered, Undo(TakeNumberBack(numbered)));
      } else {
        PayLaneKeeps(numbered, number.value, id, pkt);
        SharesTwice(w, numbered, PayLane(numbered, number.value, id, pkt).0);
      }
    }
  }

  lemma CancelCommits(b: Books, id: nat, r: Reservation)
    ensures BookCancel(b, id, r).committed == b.committed
  {
  }

  lemma WorldHasBooks(w: World, bound: nat)
    requires WorldInv(w, bound)
    ensures BooksOk(w.books)
  {
  }

  lemma FinishLaneKeeps(w: World, bound: nat)
    requires WorldInv(w, bound)
    ensures WorldInv(FinishLane(w), bound) && Shares(w, FinishLane(w)) && !FinishLane(w).lane.queue.active
  {
    hide QueueInv, Ordered, SentInOrder, BooksOk, Framed;
    FinishKeeps(w.lane.queue);
    var q' := FinishFrame(w.lane.queue);
    FramedEnd(w.lane.log, w.lane.queue.open, w.lane.queue.active, w.lane.frame);
    QueueSizes(w.lane.queue);
    SameHeld(q'.items, w.lane.queue.items);
  }

  /** What is sent left the queue at its head, after everything sent before it. */
  lemma SentNext(sent: seq<Sent>, log: seq<Logged>, gone: nat, rolled: set<nat>, bound: nat, s: Sent)
    requires SentInOrder(sent, log, gone) && Ordered(log, rolled, bound) && gone < |log| && s.packet == log[gone].packet
    ensures SentInOrder(sent + [s], log, gone + 1) && SentInOrder(sent, log, gone + 1)
  {
    SentDrop(sent, log, gone, 1);
    forall i | 0 <= i < |sent| ensures sent[i].packet < s.packet {
      assert IsGone(log, gone, sent[i].packet);
      var j :| 0 <= j < gone <= |log| && log[j].packet == sent[i].packet;
    }
    assert IsGone(log, gone + 1, s.packet);
  }

  lemma MirrorsTail(items: seq<Item>, log: seq<Logged>)
    requires Mirrors(items, log) && items != []
    ensures Mirrors(items[1..], log) && items[0].packet == log[|log| - |items|].packet
  {
  }

  lemma PopIs(q: Queue)
    requires q.items != [] && q.ready > 0
    ensures var p := Emptied(Pop(q));
      && p.items == q.items[1..] && p.open == q.open && p.active == q.active && p.drop == q.drop
      && p.rolledCount == q.rolledCount && p.rolledSsrc == q.rolledSsrc
  {
  }

  /** Taking the head packet out of the queue, with or without noting it as sent. */
  lemma TakeHeadKeeps(lane: Lane, next: Numbering, bound: nat, sent: seq<Sent>)
    requires LaneInv(lane, next, bound) && lane.queue.ready > 0 && lane.queue.items != []
    requires
      || sent == lane.sent
      || (&& |sent| == |lane.sent| + 1 && sent[..|lane.sent|] == lane.sent
          && sent[|lane.sent|].packet == lane.queue.items[0].packet)
    ensures LaneInv(lane.(queue := Emptied(Pop(lane.queue)), sent := sent), next, bound)
  {
    hide QueueInv, Ordered, Mirrors, SentInOrder, Framed, Pop, Emptied;
    var q := lane.queue;
    MirrorsSize(q.items, lane.log);
    PopKeeps(q);
    PopIs(q);
    MirrorsTail(q.items, lane.log);
    var s := Sent(q.items[0].packet, if |sent| > |lane.sent| then sent[|lane.sent|].charged else 0);
    SentNext(lane.sent, lane.log, |lane.log| - |q.items|, lane.rolled, bound, s);
    assert sent == lane.sent || sent == lane.sent + [s];
  }

  lemma DrainOneKeeps(w: World, valid: bool, now: int, bound: nat)
    requires WorldInv(w, bound)
    ensures WorldInv(DrainOne(w, valid, now), bound) && Shares(w, DrainOne(w, valid, now))
  {
    hide LaneInv, BooksOk, Pop, Emptied;
    var q := w.lane.queue;
    if !(q.ready == 0 || q.items == [] || (valid && q.items[0].release > now)) {
      var s := Sent(q.items[0].packet, Held(q.items[0].reservation));
      TakeHeadKeeps(w.lane, w.next, bound, if valid then w.lane.sent + [s] else w.lane.sent);
      PopIs(q);
      SettleKeepsBooks(w.books, q.items[0].packet, q.items[0].reservation);
      ChargedAppend(w.lane.sent, s);
    }
  }

  lemma ChargedAppend(sent: seq<Sent>, s: Sent)
    ensures ChargedBytes(sent + [s]) == ChargedBytes(sent) + s.charged
  {
    assert (sent + [s])[..|sent|] == sent;
  }

  lemma SettleKeepsBooks(b: Books, id: nat, r: Reservation)
    requires BooksOk(b)
    ensures BooksOk(BookCommit(b, id, r)) && BooksOk(BookCancel(b, id, r))
  {
  }

  lemma OfferKeeps(w: World, id: nat, pkt: Input)
    requires WorldInv(w, id)
    ensures WorldInv(Offer(w, id, pkt), id + 1) && Shares(w, Offer(w, id, pkt))
  {
    hide WorldInv, Shares, BoundLane, AdmitLane, QueueLane, FinishLane;
    SharesItself(w);
    LaterBound(w, id, id + 1);
    if !pkt.fault.Unauthorized? {
      if w.lane.screen && !w.lane.queue.active { BoundLaneKeeps(w, pkt.now, id); }
      var (bounded, under) := if w.lane.screen && !w.lane.queue.active then BoundLane(w, pkt.now) else (w, true);
      LaterBound(bounded, id, id + 1);
      if under || pkt.keyframe {
        AdmitLaneKeeps(bounded, pkt, id);
        var (admitted, ok) := AdmitLane(bounded, pkt);
        SharesTwice(w, bounded, admitted);
        LaterBound(admitted, id, id + 1);
        if ok {
          QueueLaneKeeps(admitted, id, pkt);
          var (queued, done) := QueueLane(admitted, id, pkt);
          SharesTwice(w, admitted, queued);
          if done && pkt.marker {
            FinishLaneKeeps(queued, id + 1);
            var finished := FinishLane(queued);
            SharesTwice(w, queued, finished);
            if w.lane.screen {
              BoundLaneKeeps(finished, pkt.now, id + 1);
              SharesTwice(w, finished, BoundLane(finished, pkt.now).0);
            }
          }
        }
      }
    }
  }

  lemma SharesItself(w: World)
    ensures Shares(w, w)
  {
  }
}

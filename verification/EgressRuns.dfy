/**
 Whole runs of a subscriber session: many outbound video streams that share one pacer and one
 sequence translator, with unpaced sends beside them.
 */
module EgressRuns {
  import opened Pacing
  import opened SeqTranslation
  import opened PacedQueue
  import opened EgressLane

  type Seq16 = n: nat | n < 65536

  /** `packets` counts the packets offered so far and names them; `direct` is the number of
      bytes charged for unpaced sends, `sentDirect` names their packets. */
  datatype Session = Session(
    lanes: seq<Lane>, books: Books, next: Numbering, packets: nat, direct: nat, sentDirect: multiset<nat>)

  datatype Action =
    | OfferPacket(k: nat, pkt: Input, number: Seq16)
    | SchedulerReject(k: nat)
    | DrainHead(k: nat, valid: bool, now: int)
    | ChangeRate(bps: nat, now: int)
    | SendDirect(ssrc: Ssrc, number: Seq16, cls: PacerClass, bytes: nat, allowDrop: bool, encrypted: bool,
                 accepted: bool, now: int)

  function WorldOf(s: Session, k: nat): World
    requires k < |s.lanes|
  {
    World(s.lanes[k], s.books, s.next)
  }

  function Put(s: Session, k: nat, w: World, packets: nat): Session
    requires k < |s.lanes|
  {
    s.(lanes := s.lanes[k := w.lane], books := w.books, next := w.next, packets := packets)
  }

  predicate OwnsLane(s: Session, ssrc: Ssrc) { exists k :: 0 <= k < |s.lanes| && s.lanes[k].ssrc == ssrc }

  /** A packet sent without a queue: audio, and video without a remote slot.  Its stream is not
      one of the paced ones. */
  function Direct(s: Session, ssrc: Ssrc, number: nat, cls: PacerClass, bytes: nat, allowDrop: bool, encrypted: bool,
                  accepted: bool, now: int): Session {
    var (next, out) := Translate(s.next, ssrc, number);
    if out.None? then s
    else if !encrypted then s.(next := Rollback(next, ssrc, 1))
    else
      var (books, r) := BookReserve(s.books, s.packets, cls, bytes, allowDrop, now);
      if r.None? then s.(books := books, next := Rollback(next, ssrc, 1))
      else if !accepted then s.(books := BookCancel(books, s.packets, r.value), next := Rollback(next, ssrc, 1))
      else
        s.(books := BookCommit(books, s.packets, r.value), next := next, direct := s.direct + Held(r.value),
           sentDirect := s.sentDirect + multiset{s.packets})
  }

  function BookRate(b: Books, bps: nat, now: int): Books {
    var p := SetRate(b.pacer, bps, now);
    b.(pacer := p, toppedUp := b.toppedUp + p.balance - b.pacer.balance)
  }

  ghost function Step(s: Session, a: Action): Session {
    match a
    case OfferPacket(k, pkt, number) =>
      if k < |s.lanes| then Put(s, k, Offer(WorldOf(s, k), s.packets, pkt.(source := number)), s.packets + 1) else s
    case SchedulerReject(k) => if k < |s.lanes| then Put(s, k, Undo(WorldOf(s, k)), s.packets) else s
    case DrainHead(k, valid, now) =>
      if k < |s.lanes| then Put(s, k, DrainOne(WorldOf(s, k), valid, now), s.packets) else s
    case ChangeRate(bps, now) => s.(books := BookRate(s.books, bps, now))
    case SendDirect(ssrc, number, cls, bytes, allowDrop, encrypted, accepted, now) =>
      if OwnsLane(s, ssrc) then s
      else Direct(s, ssrc, number, cls, bytes, allowDrop, encrypted, accepted, now).(packets := s.packets + 1)
  }

  ghost function Run(s: Session, actions: seq<Action>): Session
    decreases |actions|
  {
    if actions == [] then s else Run(Step(s, actions[0]), actions[1..])
  }

  predicate NewBooks(b: Books) {
    && !b.pacer.active && b.pacer.balance == 0 && b.pacer.reserved == 0
    && b.granted == 0 && b.committed == 0 && b.cancelled == 0 && b.toppedUp == 0
    && b.ledger == Ledger(multiset{}, multiset{}, multiset{})
  }

  ghost predicate IsNew(lane: Lane) { lane == Lane(NEW_QUEUE, lane.ssrc, lane.screen, 0, [], [], {}, []) }

  /** A session before its first packet: every paced stream has an SSRC of its own. */
  ghost predicate Fresh(s: Session) {
    && (forall k {:trigger IsNew(s.lanes[k])} | 0 <= k < |s.lanes| :: IsNew(s.lanes[k]))
    && (forall j, k | 0 <= j < k < |s.lanes| :: s.lanes[j].ssrc != s.lanes[k].ssrc)
    && NewBooks(s.books) && s.next == map[] && s.packets == 0 && s.direct == 0 && s.sentDirect == multiset{}
  }

  // ------------------------------------------------------------------------- invariant

  function TotalHeld(lanes: seq<Lane>): nat {
    if lanes == [] then 0 else TotalHeld(lanes[..|lanes| - 1]) + HeldBytes(lanes[|lanes| - 1].queue.items)
  }

  function TotalCharged(lanes: seq<Lane>): nat {
    if lanes == [] then 0 else TotalCharged(lanes[..|lanes| - 1]) + ChargedBytes(lanes[|lanes| - 1].sent)
  }

  ghost predicate SessionInv(s: Session) {
    && (forall k {:trigger LaneInv(s.lanes[k], s.next, s.packets)} | 0 <= k < |s.lanes| ::
          LaneInv(s.lanes[k], s.next, s.packets))
    && (forall j, k | 0 <= j < k < |s.lanes| :: s.lanes[j].ssrc != s.lanes[k].ssrc)
    && BooksOk(s.books)
    && s.books.pacer.reserved == TotalHeld(s.lanes)
    && s.books.committed == TotalCharged(s.lanes) + s.direct
  }

  lemma {:induction false} TotalsAfter(lanes: seq<Lane>, k: nat, lane: Lane)
    requires k < |lanes|
    ensures TotalHeld(lanes[k := lane]) ==
      TotalHeld(lanes) - HeldBytes(lanes[k].queue.items) + HeldBytes(lane.queue.items)
    ensures TotalCharged(lanes[k := lane]) ==
      TotalCharged(lanes) - ChargedBytes(lanes[k].sent) + ChargedBytes(lane.sent)
  {
    var n := |lanes| - 1;
    if k == n {
      assert lanes[k := lane][..n] == lanes[..n];
    } else {
      TotalsAfter(lanes[..n], k, lane);
      assert lanes[k := lane][..n] == lanes[..n][k := lane];
    }
  }

  lemma {:induction false} NewTotals(lanes: seq<Lane>)
    requires forall k {:trigger IsNew(lanes[k])} | 0 <= k < |lanes| :: IsNew(lanes[k])
    ensures TotalHeld(lanes) == 0 && TotalCharged(lanes) == 0
  {
    if lanes != [] {
      var rest := lanes[..|lanes| - 1];
      assert IsNew(lanes[|lanes| - 1]);
      forall k | 0 <= k < |rest| ensures IsNew(rest[k]) { assert IsNew(lanes[k]); }
      NewTotals(rest);
    }
  }

  /** A lane does not notice numbers of other streams. */
  lemma OtherLane(lane: Lane, next: Numbering, next': Numbering, bound: nat, bound': nat)
    requires LaneInv(lane, next, bound) && bound <= bound'
    requires lane.ssrc in next <==> lane.ssrc in next'
    ensures LaneInv(lane, next', bound')
  {
    hide QueueInv, Framed, SentInOrder, Mirrors;
  }

  lemma LaneStepKeeps(s: Session, k: nat, w: World, packets: nat)
    requires SessionInv(s) && k < |s.lanes| && s.packets <= packets
    requires WorldInv(w, packets) && Shares(WorldOf(s, k), w)
    ensures SessionInv(Put(s, k, w, packets))
  {
    hide LaneInv, BooksOk, TotalHeld, TotalCharged, HeldBytes, ChargedBytes;
    var s' := Put(s, k, w, packets);
    TotalsAfter(s.lanes, k, w.lane);
    forall j | 0 <= j < |s.lanes| ensures LaneInv(s'.lanes[j], s'.next, s'.packets) {
      if j != k {
        assert LaneInv(s.lanes[j], s.next, s.packets);
        OtherLane(s.lanes[j], s.next, s'.next, s.packets, packets);
      }
    }
  }

  lemma DirectKeepsBooks(s: Session, ssrc: Ssrc, number: nat, cls: PacerClass, bytes: nat, allowDrop: bool,
                         encrypted: bool, accepted: bool, now: int)
    requires BooksOk(s.books)
    ensures var s' := Direct(s, ssrc, number, cls, bytes, allowDrop, encrypted, accepted, now);
      && s'.lanes == s.lanes && s'.packets == s.packets && BooksOk(s'.books)
      && s'.books.pacer.reserved == s.books.pacer.reserved
      && s'.books.committed - s'.direct == s.books.committed - s.direct
  {
    hide BookReserve, Translate, Rollback;
    ReserveKeepsBooks(s.books, s.packets, cls, bytes, allowDrop, now);
    var (books, r) := BookReserve(s.books, s.packets, cls, bytes, allowDrop, now);
    if r.Some? { SettleKeepsBooks(books, s.packets, r.value); }
  }

  lemma DirectElsewhere(s: Session, ssrc: Ssrc, number: Seq16, cls: PacerClass, bytes: nat, allowDrop: bool,
                        encrypted: bool, accepted: bool, now: int)
    ensures var s' := Direct(s, ssrc, number, cls, bytes, allowDrop, encrypted, accepted, now);
      && (forall u | u != ssrc :: u in s'.next <==> u in s.next)
      && (forall u | u != ssrc && u in s.next :: s'.next[u] == s.next[u])
  {
    hide BookReserve, BookCancel, BookCommit;
  }

  lemma DirectKeeps(s: Session, ssrc: Ssrc, number: Seq16, cls: PacerClass, bytes: nat, allowDrop: bool,
                    encrypted: bool, accepted: bool, now: int)
    requires SessionInv(s) && !OwnsLane(s, ssrc)
    ensures var s' := Direct(s, ssrc, number, cls, bytes, allowDrop, encrypted, accepted, now);
      SessionInv(s'.(packets := s.packets + 1)) && s'.lanes == s.lanes
  {
    hide LaneInv, BooksOk, Direct, TotalHeld, TotalCharged, Translate;
    var s' := Direct(s, ssrc, number, cls, bytes, allowDrop, encrypted, accepted, now);
    DirectKeepsBooks(s, ssrc, number, cls, bytes, allowDrop, encrypted, accepted, now);
    DirectElsewhere(s, ssrc, number, cls, bytes, allowDrop, encrypted, accepted, now);
    forall j | 0 <= j < |s.lanes| ensures LaneInv(s'.lanes[j], s'.next, s.packets + 1) {
      assert LaneInv(s.lanes[j], s.next, s.packets);
      assert s.lanes[j].ssrc != ssrc;
      OtherLane(s.lanes[j], s.next, s'.next, s.packets, s.packets + 1);
    }
  }

  lemma RateKeepsBooks(b: Books, bps: nat, now: int)
    requires BooksOk(b)
    ensures BooksOk(BookRate(b, bps, now)) && BookRate(b, bps, now).pacer.reserved == b.pacer.reserved
    ensures BookRate(b, bps, now).committed == b.committed
  {
    SetRateKeeps(b.pacer, bps, now);
  }

  lemma StepKeeps(s: Session, a: Action)
    requires SessionInv(s)
    ensures SessionInv(Step(s, a)) && |Step(s, a).lanes| == |s.lanes|
  {
    hide LaneInv, BooksOk, Offer, Undo, DrainOne, Direct, BookRate, TotalHeld, TotalCharged, Shares;
    match a {
      case OfferPacket(k, pkt, number) =>
        if k < |s.lanes| {
          assert LaneInv(s.lanes[k], s.next, s.packets);
          var w := Offer(WorldOf(s, k), s.packets, pkt.(source := number));
          OfferKeeps(WorldOf(s, k), s.packets, pkt.(source := number));
          LaneStepKeeps(s, k, w, s.packets + 1);
        }
      case SchedulerReject(k) =>
        if k < |s.lanes| {
          assert LaneInv(s.lanes[k], s.next, s.packets);
          UndoKeeps(WorldOf(s, k), s.packets);
          LaneStepKeeps(s, k, Undo(WorldOf(s, k)), s.packets);
        }
      case DrainHead(k, valid, now) =>
        if k < |s.lanes| {
          assert LaneInv(s.lanes[k], s.next, s.packets);
          DrainOneKeeps(WorldOf(s, k), valid, now, s.packets);
          LaneStepKeeps(s, k, DrainOne(WorldOf(s, k), valid, now), s.packets);
        }
      case ChangeRate(bps, now) => RateKeepsBooks(s.books, bps, now);
      case SendDirect(ssrc, number, cls, bytes, allowDrop, encrypted, accepted, now) =>
        if !OwnsLane(s, ssrc) { DirectKeeps(s, ssrc, number, cls, bytes, allowDrop, encrypted, accepted, now); }
    }
  }

  lemma {:induction false} RunKeeps(s: Session, actions: seq<Action>)
    requires SessionInv(s)
    ensures SessionInv(Run(s, actions)) && |Run(s, actions).lanes| == |s.lanes|
    decreases |actions|
  {
    hide SessionInv, Step;
    if actions != [] {
      StepKeeps(s, actions[0]);
      RunKeeps(Step(s, actions[0]), actions[1..]);
    }
  }

  lemma NewLaneOk(lane: Lane)
    requires IsNew(lane)
    ensures LaneInv(lane, map[], 0)
  {
    assert NEW_QUEUE.items[..0] == [];
  }

  lemma FreshLanes(s: Session)
    requires Fresh(s)
    ensures forall k {:trigger LaneInv(s.lanes[k], s.next, s.packets)} | 0 <= k < |s.lanes| ::
      LaneInv(s.lanes[k], s.next, s.packets)
  {
    hide LaneInv, IsNew;
    forall k | 0 <= k < |s.lanes| ensures LaneInv(s.lanes[k], s.next, s.packets) {
      assert IsNew(s.lanes[k]);
      NewLaneOk(s.lanes[k]);
    }
  }

  lemma FreshBooks(s: Session)
    requires Fresh(s)
    ensures BooksOk(s.books) && s.books.pacer.reserved == TotalHeld(s.lanes)
    ensures s.books.committed == TotalCharged(s.lanes) + s.direct
    ensures forall j, k | 0 <= j < k < |s.lanes| :: s.lanes[j].ssrc != s.lanes[k].ssrc
  {
    hide TotalHeld, TotalCharged, IsNew;
    NewTotals(s.lanes);
  }

  lemma FreshIsOk(s: Session)
    requires Fresh(s)
    ensures SessionInv(s)
  {
    hide LaneInv, BooksOk, TotalHeld, TotalCharged, Fresh;
    FreshLanes(s);
    FreshBooks(s);
  }

  // -------------------------------------------------------------------------- theorems

  /** In every run, the ring holds the tail of the history, its ready part consists of whole
      frames with one frame end each, and packets are spaced by their spans. */
  lemma QueuesHoldWholeFrames(s: Session, actions: seq<Action>, k: nat)
    requires Fresh(s) && k < |s.lanes|
    ensures k < |Run(s, actions).lanes|
    ensures var q := Run(s, actions).lanes[k].queue;
      && |q.items| == q.ready + q.open <= CAPACITY
      && (q.ready > 0 ==> q.items[q.ready - 1].frameEnd) && Ends(q.items[..q.ready]) == q.readyFrames
      && (forall i | q.ready <= i < |q.items| :: !q.items[i].frameEnd)
      && Spaced(q.items, q.nextRelease)
  {
    hide Run, Fresh, Mirrors, Ordered, Framed, SentInOrder, BooksOk, TotalHeld, TotalCharged, Spaced, Ends;
    var e := Run(s, actions);
    FreshIsOk(s);
    RunKeeps(s, actions);
    assert LaneInv(e.lanes[k], e.next, e.packets);
  }

  /** In every run, what was sent was sent in queueing order and at most once, was never rolled
      back, and belongs to a finished frame: no packet of that frame is still to be queued. */
  lemma SendsAreWholeFramesInOrder(s: Session, actions: seq<Action>, k: nat, j: nat) returns (at: nat)
    requires Fresh(s) && k < |s.lanes|
    ensures k < |Run(s, actions).lanes|
    ensures var lane := Run(s, actions).lanes[k];
      && (forall i | 0 <= i < j < |lane.sent| :: lane.sent[i].packet < lane.sent[j].packet)
      && (j < |lane.sent| ==>
            && at < |lane.log| - |lane.queue.items| && lane.log[at].packet == lane.sent[j].packet
            && lane.sent[j].packet !in lane.rolled
            && FrameDone(lane.queue.active, lane.frame, lane.log[at].frame)
            && (forall i | 0 <= i < |lane.log| && |lane.log| - lane.queue.open <= i ::
                  lane.log[i].frame != lane.log[at].frame))
  {
    hide Run, Fresh, QueueInv, Mirrors, BooksOk, TotalHeld, TotalCharged;
    var e := Run(s, actions);
    FreshIsOk(s);
    RunKeeps(s, actions);
    var lane := e.lanes[k];
    assert LaneInv(lane, e.next, e.packets);
    at := 0;
    if j < |lane.sent| {
      assert IsGone(lane.log, |lane.log| - |lane.queue.items|, lane.sent[j].packet);
      at :| 0 <= at < |lane.log| - |lane.queue.items| && lane.log[at].packet == lane.sent[j].packet;
      QueueSizes(lane.queue);
    }
  }

  // --------------------------------------------------- finished frames stay finished

  predicate DoneIn(lane: Lane, f: nat) { FrameDone(lane.queue.active, lane.frame, f) }

  lemma UndoStaysDone(w: World, f: nat)
    requires DoneIn(w.lane, f)
    ensures DoneIn(Undo(w).lane, f)
  {
    hide CancelItems, NotedSsrc, Rollback, Packets;
  }

  lemma BoundStaysDone(w: World, now: int, f: nat)
    requires DoneIn(w.lane, f) && QueueInv(w.lane.queue)
    ensures DoneIn(BoundLane(w, now).0.lane, f)
  {
    hide CancelItems, Trim, ProjectedDelay, QueueInv;
    if !w.lane.queue.active {
      var n := BoundBacklogKeeps(w.lane.queue, SCREEN_MAX_DELAY_US, now);
    }
  }

  lemma AdmitStaysDone(w: World, pkt: Input, f: nat)
    requires DoneIn(w.lane, f)
    ensures DoneIn(AdmitLane(w, pkt).0.lane, f)
  {
    hide CancelItems, NotedSsrc, Rollback, Packets, ProjectedDelay, RollbackFrame;
  }

  lemma QueueStaysDone(w: World, id: nat, pkt: Input, f: nat)
    requires DoneIn(w.lane, f)
    ensures DoneIn(QueueLane(w, id, pkt).0.lane, f)
  {
    hide Undo, BookReserve, BookCancel, Translate, Rollback, Span, FrameDone;
    var numbered := TakeNumber(w, pkt.source).0;
    var (books, r) := BookReserve(w.books, id, pkt.cls, pkt.len, pkt.allowDrop, pkt.now);
    UndoStaysDone(TakeNumberBack(numbered), f);
    UndoStaysDone(TakeNumberBack(numbered.(books := books)), f);
    if r.Some? { UndoStaysDone(TakeNumberBack(numbered.(books := BookCancel(books, id, r.value))), f); }
  }

  lemma OfferStaysDone(w: World, id: nat, pkt: Input, f: nat)
    requires WorldInv(w, id) && DoneIn(w.lane, f)
    ensures DoneIn(Offer(w, id, pkt).lane, f)
  {
    hide WorldInv, BoundLane, AdmitLane, QueueLane, DoneIn, Shares;
    if !pkt.fault.Unauthorized? {
      WorldHasQueue(w, id);
      if w.lane.screen && !w.lane.queue.active {
        BoundLaneKeeps(w, pkt.now, id);
        BoundStaysDone(w, pkt.now, f);
      }
      var (bounded, under) := if w.lane.screen && !w.lane.queue.active then BoundLane(w, pkt.now) else (w, true);
      if under || pkt.keyframe {
        AdmitLaneKeeps(bounded, pkt, id);
        AdmitStaysDone(bounded, pkt, f);
        var (admitted, ok) := AdmitLane(bounded, pkt);
        if ok {
          QueueLaneKeeps(admitted, id, pkt);
          QueueStaysDone(admitted, id, pkt, f);
          var queued := QueueLane(admitted, id, pkt).0;
          FinishLaneKeeps(queued, id + 1);
          FinishStaysDone(queued, f);
          var finished := FinishLane(queued);
          WorldHasQueue(finished, id + 1);
          BoundStaysDone(finished, pkt.now, f);
        }
      }
    }
  }

  lemma WorldHasQueue(w: World, bound: nat)
    requires WorldInv(w, bound)
    ensures QueueInv(w.lane.queue)
  {
  }

  lemma FinishStaysDone(w: World, f: nat)
    requires DoneIn(w.lane, f)
    ensures DoneIn(FinishLane(w).lane, f)
  {
  }

  lemma StepStaysDone(s: Session, a: Action, k: nat, f: nat)
    requires SessionInv(s) && k < |s.lanes| && DoneIn(s.lanes[k], f)
    ensures k < |Step(s, a).lanes| && DoneIn(Step(s, a).lanes[k], f)
  {
    hide LaneInv, BooksOk, Offer, Undo, DoneIn, BookRate, TotalHeld, TotalCharged, Translate, BookReserve,
        BookCommit, BookCancel;
    assert LaneInv(s.lanes[k], s.next, s.packets);
    match a {
      case OfferPacket(j, pkt, number) =>
        if j == k { OfferStaysDone(WorldOf(s, k), s.packets, pkt.(source := number), f); }
      case SchedulerReject(j) => if j == k { UndoStaysDone(WorldOf(s, k), f); }
      case DrainHead(j, valid, now) => if j == k { DrainStaysDone(WorldOf(s, k), valid, now, f); }
      case ChangeRate(bps, now) =>
      case SendDirect(ssrc, number, cls, bytes, allowDrop, encrypted, accepted, now) =>
    }
  }

  lemma DrainStaysDone(w: World, valid: bool, now: int, f: nat)
    requires DoneIn(w.lane, f)
    ensures DoneIn(DrainOne(w, valid, now).lane, f)
  {
  }

  /** Once a frame is finished, and so once any of its packets was sent, no run ever adds a
      packet to it: every packet of a frame still open later belongs to another frame. */
  lemma {:induction false} FinishedFramesStayFinished(s: Session, actions: seq<Action>, k: nat, f: nat)
    requires SessionInv(s) && k < |s.lanes| && DoneIn(s.lanes[k], f)
    ensures k < |Run(s, actions).lanes| && DoneIn(Run(s, actions).lanes[k], f)
    ensures var lane := Run(s, actions).lanes[k];
      && |lane.log| >= lane.queue.open
      && forall i | |lane.log| - lane.queue.open <= i < |lane.log| :: lane.log[i].frame != f
    decreases |actions|
  {
    if actions == [] {
      hide QueueInv, Mirrors, BooksOk, Ordered, SentInOrder, TotalHeld, TotalCharged;
      assert LaneInv(s.lanes[k], s.next, s.packets);
      QueueSizes(s.lanes[k].queue);
    } else {
      hide SessionInv, Step, DoneIn;
      StepKeeps(s, actions[0]);
      StepStaysDone(s, actions[0], k, f);
      FinishedFramesStayFinished(Step(s, actions[0]), actions[1..], k, f);
    }
  }

  /** In every run: the bytes the pacer holds back are those of the queued packets, every granted
      byte is held, committed or given back, and apart from refills and rate changes the balance
      fell by exactly the charged bytes of packets that were sent. */
  lemma ReservationsAreConserved(s: Session, actions: seq<Action>)
    requires Fresh(s)
    ensures var e := Run(s, actions);
      && e.books.pacer.reserved == TotalHeld(e.lanes)
      && e.books.granted == TotalHeld(e.lanes) + e.books.committed + e.books.cancelled
      && e.books.committed == TotalCharged(e.lanes) + e.direct
      && e.books.pacer.balance == e.books.toppedUp - (TotalCharged(e.lanes) + e.direct)
      && (e.books.pacer.active ==> e.books.pacer.balance <= e.books.pacer.cap)
  {
    hide TotalHeld, TotalCharged, LaneInv, Run, Fresh;
    FreshIsOk(s);
    RunKeeps(s, actions);
  }
}

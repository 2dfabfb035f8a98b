/** What becomes of every reservation over whole runs of a session. */
module EgressSettlementRuns {
  import opened Pacing
  import opened SeqTranslation
  import opened PacedQueue
  import opened EgressLane
  import opened EgressSettlement
  import opened EgressRuns

  function QueuedIn(lanes: seq<Lane>, x: nat): nat {
    if lanes == [] then 0 else QueuedIn(lanes[..|lanes| - 1], x) + Queued(lanes[|lanes| - 1].queue.items, x)
  }

  function SentIn(lanes: seq<Lane>, x: nat): nat {
    if lanes == [] then 0 else SentIn(lanes[..|lanes| - 1], x) + Sends(lanes[|lanes| - 1].sent, x)
  }

  /** The reservation of packet `x`, if one was granted, is in exactly one place. */
  ghost predicate InOnePlace(s: Session, x: nat) {
    && var l := s.books.ledger;
    && l.granted[x] <= 1 && (l.granted[x] > 0 ==> x < s.packets)
    && l.granted[x] == QueuedIn(s.lanes, x) + l.committed[x] + l.cancelled[x]
    && l.committed[x] == SentIn(s.lanes, x) + s.sentDirect[x]
  }

  lemma {:induction false} CountsAfter(lanes: seq<Lane>, k: nat, lane: Lane, x: nat)
    requires k < |lanes|
    ensures QueuedIn(lanes[k := lane], x) ==
      QueuedIn(lanes, x) - Queued(lanes[k].queue.items, x) + Queued(lane.queue.items, x)
    ensures SentIn(lanes[k := lane], x) == SentIn(lanes, x) - Sends(lanes[k].sent, x) + Sends(lane.sent, x)
  {
    var n := |lanes| - 1;
    if k == n {
      assert lanes[k := lane][..n] == lanes[..n];
    } else {
      CountsAfter(lanes[..n], k, lane, x);
      assert lanes[k := lane][..n] == lanes[..n][k := lane];
    }
  }

  lemma {:induction false} NewCounts(lanes: seq<Lane>, x: nat)
    requires forall k {:trigger IsNew(lanes[k])} | 0 <= k < |lanes| :: IsNew(lanes[k])
    ensures QueuedIn(lanes, x) == 0 && SentIn(lanes, x) == 0
  {
    if lanes != [] {
      var rest := lanes[..|lanes| - 1];
      assert IsNew(lanes[|lanes| - 1]);
      forall k | 0 <= k < |rest| ensures IsNew(rest[k]) { assert IsNew(lanes[k]); }
      NewCounts(rest, x);
    }
  }

  lemma LaneStepSettles(s: Session, k: nat, w: World, packets: nat, x: nat, new': bool)
    requires InOnePlace(s, x) && k < |s.lanes| && Settles(WorldOf(s, k), w, x, s.packets, new')
    requires packets == if new' then s.packets + 1 else s.packets
    ensures InOnePlace(Put(s, k, w, packets), x)
  {
    hide QueuedIn, SentIn, Queued, Sends;
    CountsAfter(s.lanes, k, w.lane, x);
  }

  lemma DirectSettles(s: Session, ssrc: Ssrc, number: Seq16, cls: PacerClass, bytes: nat, allowDrop: bool,
                      encrypted: bool, accepted: bool, now: int, x: nat)
    requires InOnePlace(s, x)
    ensures InOnePlace(Direct(s, ssrc, number, cls, bytes, allowDrop, encrypted, accepted,
                              now).(packets := s.packets + 1), x)
  {
    hide QueuedIn, SentIn, Reserve, Translate, Rollback;
  }

  lemma StepSettles(s: Session, a: Action, x: nat)
    requires SessionInv(s) && InOnePlace(s, x)
    ensures InOnePlace(Step(s, a), x)
  {
    hide LaneInv, BooksOk, Offer, Undo, DrainOne, Direct, BookRate, TotalHeld, TotalCharged, Settles, InOnePlace;
    match a {
      case OfferPacket(k, pkt, number) =>
        if k < |s.lanes| {
          assert LaneInv(s.lanes[k], s.next, s.packets);
          OfferSettles(WorldOf(s, k), s.packets, pkt.(source := number), x);
          LaneStepSettles(s, k, Offer(WorldOf(s, k), s.packets, pkt.(source := number)), s.packets + 1, x, true);
        }
      case SchedulerReject(k) =>
        if k < |s.lanes| {
          assert LaneInv(s.lanes[k], s.next, s.packets);
          UndoSettles(WorldOf(s, k), s.packets, x, s.packets);
          LaneStepSettles(s, k, Undo(WorldOf(s, k)), s.packets, x, false);
        }
      case DrainHead(k, valid, now) =>
        if k < |s.lanes| {
          DrainSettles(WorldOf(s, k), valid, now, x, s.packets);
          LaneStepSettles(s, k, DrainOne(WorldOf(s, k), valid, now), s.packets, x, false);
        }
      case ChangeRate(bps, now) => RateSettles(s, bps, now, x);
      case SendDirect(ssrc, number, cls, bytes, allowDrop, encrypted, accepted, now) =>
        if !OwnsLane(s, ssrc) { DirectSettles(s, ssrc, number, cls, bytes, allowDrop, encrypted, accepted, now, x); }
    }
  }

  lemma RateSettles(s: Session, bps: nat, now: int, x: nat)
    requires InOnePlace(s, x)
    ensures InOnePlace(s.(books := BookRate(s.books, bps, now)), x)
  {
    hide QueuedIn, SentIn, SetRate;
  }

  lemma {:induction false} RunSettles(s: Session, actions: seq<Action>, x: nat)
    requires SessionInv(s) && InOnePlace(s, x)
    ensures InOnePlace(Run(s, actions), x)
    decreases |actions|
  {
    hide SessionInv, InOnePlace, Step;
    if actions != [] {
      StepKeeps(s, actions[0]);
      StepSettles(s, actions[0], x);
      RunSettles(Step(s, actions[0]), actions[1..], x);
    }
  }

  /** In every run, with many streams and unpaced sends on one pacer: each packet has at most one
      reservation, and each granted reservation is held by one queued packet, or was committed
      once, or was cancelled once, and never two of these; what was committed was sent. */
  lemma ReservationsSettleOnce(s: Session, actions: seq<Action>, x: nat)
    requires Fresh(s)
    ensures var e := Run(s, actions); var l := e.books.ledger;
      && l.granted[x] <= 1
      && l.granted[x] == QueuedIn(e.lanes, x) + l.committed[x] + l.cancelled[x]
      && l.committed[x] == SentIn(e.lanes, x) + e.sentDirect[x]
  {
    hide Run, SessionInv, QueuedIn, SentIn, IsNew;
    FreshIsOk(s);
    NewCounts(s.lanes, x);
    RunSettles(s, actions, x);
  }

  // ----------------------------------------------------------------- the end of a session

  /** The books after the queues were destroyed: each cancels what it still holds. */
  function Destroyed(b: Books, lanes: seq<Lane>): Books
    decreases |lanes|
  {
    if lanes == [] then b
    else CancelItems(Destroyed(b, lanes[..|lanes| - 1]), lanes[|lanes| - 1].queue.items)
  }

  lemma {:induction false} DestroySettles(b: Books, lanes: seq<Lane>, x: nat)
    ensures var b' := Destroyed(b, lanes);
      && b'.pacer == b.pacer.(reserved := b.pacer.reserved - TotalHeld(lanes))
      && b'.ledger.granted == b.ledger.granted && b'.ledger.committed == b.ledger.committed
      && b'.ledger.cancelled[x] == b.ledger.cancelled[x] + QueuedIn(lanes, x)
    decreases |lanes|
  {
    hide HeldBytes, Queued, CancelItems;
    if lanes != [] {
      var rest, items := lanes[..|lanes| - 1], lanes[|lanes| - 1].queue.items;
      DestroySettles(b, rest, x);
      CancelItemsIs(Destroyed(b, rest), items);
      CancelsEach(Destroyed(b, rest), items, x);
    }
  }

  /** Whenever a session ends, every reservation it was ever granted was committed exactly once or
      cancelled exactly once, and the pacer holds nothing back. */
  lemma EndSettlesEverything(s: Session, actions: seq<Action>, x: nat)
    requires Fresh(s)
    ensures var e := Run(s, actions); var b := Destroyed(e.books, e.lanes);
      && b.pacer.reserved == 0 && b.pacer.balance == e.books.pacer.balance
      && b.ledger.granted[x] == b.ledger.committed[x] + b.ledger.cancelled[x] <= 1
  {
    hide Run, Fresh, QueuedIn, SentIn, TotalHeld, TotalCharged, Destroyed;
    var e := Run(s, actions);
    ReservationsSettleOnce(s, actions, x);
    ReservationsAreConserved(s, actions);
    DestroySettles(e.books, e.lanes, x);
  }
}

/**
 A run in which a stream does have a hole.  A publisher that changes its SSRC has its packets
 forwarded under the old routes until the routes are refreshed: they are numbered under the new
 SSRC but noted under the old one.
 */
module EgressMisnotedRun {
  import opened Wrappers
  import opened Arithmetic
  import opened Pacing
  import opened SeqTranslation
  import opened PacedQueue
  import opened EgressLane
  import opened EgressRuns
  import opened EgressNumberRuns

  const HEADER: Ssrc := 7
  const ANNOUNCED: Ssrc := 8

  /** A packet of a camera frame. */
  function Packet(ts: nat, marker: bool, noted: Ssrc): Input {
    Input(ts, marker, false, 0, noted, 100, VideoBase, false, Clean, 0)
  }

  function NewLane(): Lane { Lane(NEW_QUEUE, HEADER, false, 0, [], [], {}, []) }

  function NoBooks(): Books
  {
    Books(Bucket(false, 0, 0, 0, 0, 0), 0, 0, 0, 0, Ledger(multiset{}, multiset{}, multiset{}))
  }

  function OneCamera(): Session { Session([NewLane()], NoBooks(), map[], 0, 0, multiset{}) }

  /** A whole frame, the start of a frame under the old route, and the next whole frame. */
  function Actions(): seq<Action> {
    [OfferPacket(0, Packet(1, true, HEADER), 10),
     OfferPacket(0, Packet(2, false, ANNOUNCED), 11),
     OfferPacket(0, Packet(3, true, HEADER), 12)]
  }

  /** A camera with a short queue that is between frames or inside one. */
  ghost predicate Camera(w: World, log: seq<nat>, items: nat, open: nat) {
    && !w.lane.screen && w.lane.ssrc == HEADER && !w.books.pacer.active
    && |w.lane.log| == |log| && (forall i | 0 <= i < |log| :: w.lane.log[i].seqNo == log[i])
    && var q := w.lane.queue;
    && |q.items| == items <= 2 && q.open == open <= items && q.active == (open > 0) && q.ready == items - open
    && q.readyFrames <= 2 && q.motion == 0 && q.nextRelease <= 1000 && q.base <= 1000 && q.rolledSsrc == 0
    && q.rolledCount == 0
  }

  /** The packet is admitted, after the frame before it was finished. */
  lemma Admitted(w: World, pkt: Input, log: seq<nat>, items: nat)
    requires Camera(w, log, items, 0) && pkt.now == 0
    ensures var (a, ok) := AdmitLane(w, pkt); var q := a.lane.queue;
      && ok
      && q ==
           w.lane.queue.(active := true, timestamp := pkt.ts, open := 0, base := w.lane.queue.nextRelease,
                         key := pkt.keyframe, drop := false)
      && a == w.(lane := w.lane.(queue := q, frame := w.lane.frame + 1))
  {
    hide CancelItems;
    assert CancelItems(w.books, []) == w.books by { NothingCancelled(w.books); }
  }

  /** An admitted packet gets its number and is queued; the pacer is off. */
  lemma GetsQueued(a: World, id: nat, pkt: Input, number: nat)
    requires !a.lane.screen && !a.books.pacer.active && pkt.fault.Clean? && pkt.len == 100 && pkt.now == 0
    requires a.lane.queue.active && |a.lane.queue.items| < 3 && a.lane.queue.nextRelease <= 1000
    requires Translate(a.next, a.lane.ssrc, pkt.source).1 == Some(number)
    ensures var w := QueueLane(a, id, pkt).0; var q := w.lane.queue;
      && QueueLane(a, id, pkt).1 && w.next == Translate(a.next, a.lane.ssrc, pkt.source).0 && !w.books.pacer.active
      && w.lane == a.lane.(queue := q, log := a.lane.log + [Logged(id, number, a.lane.frame)])
      && q == a.lane.queue.(items := q.items, nextRelease := q.nextRelease, open := a.lane.queue.open + 1)
      && |q.items| == |a.lane.queue.items| + 1 && q.items[..|q.items| - 1] == a.lane.queue.items
      && Last(q.items).ssrc == pkt.noted
      && q.nextRelease <= Max(a.lane.queue.nextRelease, 0) + 400
  {
    hide Translate, Span;
    ShortSpan(BookReserve(a.books, id, pkt.cls, pkt.len, pkt.allowDrop, pkt.now).0.pacer.rate,
              pkt.keyframe || a.lane.queue.key);
  }

  lemma ShortSpan(rate: nat, keyframe: bool)
    ensures Span(100, rate, keyframe) <= 400
  {
    var floor := if keyframe then KEYFRAME_MIN_BPS else MIN_BPS;
    var r := if rate < floor then floor else rate;
    assert r >= 2_000_000;
    Quotient(100 * 8 * 1_000_000 + r - 1, r, 401);
  }

  lemma Quotient(x: nat, r: nat, n: nat)
    requires r > 0 && x < r * n
    ensures x / r < n
  {
    if x / r >= n { MulMonotone(r, n, x / r); }
  }

  /** Rolling the started frame back notes the announced SSRC. */
  lemma RollsBack(q: Queue)
    requires |q.items| == 2 && q.open == 1 && q.ready == 1 && q.items[1].ssrc == ANNOUNCED && q.base <= 1000
    ensures OpenItems(q) == [q.items[1]] && NotedSsrc(OpenItems(q), 0) == ANNOUNCED
    ensures var r := RollbackFrame(q);
      r ==
        q.(items := q.items[..1], open := 0, key := false, rolledCount := 1, rolledSsrc := ANNOUNCED,
           nextRelease := q.base)
  {
    assert NotedSsrc([q.items[1]], q.rolledSsrc) == ANNOUNCED;
  }

  /** The frame start is abandoned for the next frame; its number is given back to a stream that
      the translator does not know. */
  lemma GivesUp(w: World, pkt: Input, log: seq<nat>)
    requires Camera(w, log, 2, 1) && |log| > 1 && pkt.now == 0 && pkt.ts != w.lane.queue.timestamp && !pkt.keyframe
    requires w.lane.queue.items[1].ssrc == ANNOUNCED && ANNOUNCED !in w.next
    ensures var (a, ok) := AdmitLane(w, pkt);
      && ok && a.next == w.next && !a.books.pacer.active && !a.lane.screen && a.lane.ssrc == HEADER
      && a.lane.log == w.lane.log[..|log| - 1] && a.lane.notes == w.lane.notes + [Note(ANNOUNCED, 1, true)]
      && a.lane.queue.active && |a.lane.queue.items| == 1 && a.lane.queue.nextRelease <= 1000
  {
    hide CancelItems, RollbackFrame, NotedSsrc, OpenItems;
    RollsBack(w.lane.queue);
    CancelItemsIs(w.books, OpenItems(w.lane.queue));
    ForgetIs(w.lane, OpenItems(w.lane.queue));
  }

  /** A frame of one packet goes through and is finished. */
  lemma WholeFrame(w: World, id: nat, pkt: Input, log: seq<nat>, items: nat, number: nat)
    requires Camera(w, log, items, 0) && items < 2 && pkt == Packet(pkt.ts, true, pkt.noted).(source := pkt.source)
    requires Translate(w.next, HEADER, pkt.source).1 == Some(number) && w.lane.queue.readyFrames < 2
    requires w.lane.queue.nextRelease <= 500
    ensures var w' := Offer(w, id, pkt);
      && Camera(w', log + [number], items + 1, 0) && w'.next == Translate(w.next, HEADER, pkt.source).0
      && w'.lane.notes == w.lane.notes
      && w'.lane.queue.nextRelease <= Max(w.lane.queue.nextRelease, 0) + 400
      && w'.lane.queue.readyFrames == w.lane.queue.readyFrames + 1
  {
    hide AdmitLane, QueueLane, Translate;
    Admitted(w, pkt, log, items);
    var a := AdmitLane(w, pkt).0;
    GetsQueued(a, id, pkt, number);
  }

  /** A frame starts under the old route. */
  lemma FrameStart(w: World, id: nat, pkt: Input, log: seq<nat>, number: nat)
    requires Camera(w, log, 1, 0) && pkt == Packet(pkt.ts, false, pkt.noted).(source := pkt.source)
    requires Translate(w.next, HEADER, pkt.source).1 == Some(number) && w.lane.queue.readyFrames < 2
    requires w.lane.queue.nextRelease <= 500
    ensures var w' := Offer(w, id, pkt);
      && Camera(w', log + [number], 2, 1) && w'.next == Translate(w.next, HEADER, pkt.source).0
      && w'.lane.notes == w.lane.notes
      && w'.lane.queue.timestamp == pkt.ts && w'.lane.queue.items[1].ssrc == pkt.noted
  {
    hide AdmitLane, QueueLane, Translate;
    Admitted(w, pkt, log, 1);
    var a := AdmitLane(w, pkt).0;
    GetsQueued(a, id, pkt, number);
  }

  /** The next frame goes out behind the abandoned one. */
  lemma NextFrame(w: World, id: nat, pkt: Input, log: seq<nat>, number: nat)
    requires Camera(w, log, 2, 1) && |log| > 1 && pkt == Packet(pkt.ts, true, pkt.noted).(source := pkt.source)
    requires pkt.ts != w.lane.queue.timestamp && w.lane.queue.items[1].ssrc == ANNOUNCED && ANNOUNCED !in w.next
    requires Translate(w.next, HEADER, pkt.source).1 == Some(number)
    ensures var w' := Offer(w, id, pkt);
      && w'.next == Translate(w.next, HEADER, pkt.source).0
      && w'.lane.notes == w.lane.notes + [Note(ANNOUNCED, 1, true)]
      && w'.lane.ssrc == HEADER
      && |w'.lane.log| == |log| && (forall i | 0 <= i < |log| - 1 :: w'.lane.log[i].seqNo == log[i])
      && w'.lane.log[|log| - 1].seqNo == number
  {
    hide AdmitLane, QueueLane, Translate;
    GivesUp(w, pkt, log);
    var a := AdmitLane(w, pkt).0;
    GetsQueued(a, id, pkt, number);
  }

  /** The session in front of packet `id`: the numbers given out so far, and the next one. */
  ghost predicate Before(s: Session, id: nat, log: seq<nat>, items: nat, open: nat) {
    && |s.lanes| == 1 && s.packets == id && Camera(WorldOf(s, 0), log, items, open) && s.lanes[0].notes == []
    && s.next == (if log == [] then map[] else map[HEADER := log[|log| - 1] + 1])
  }

  lemma FirstStep(s: Session)
    requires Before(s, 0, [], 0, 0) && s.lanes[0].queue == NEW_QUEUE
    ensures var s' := Step(s, Actions()[0]);
      Before(s', 1, [10], 1, 0) && s'.lanes[0].queue.readyFrames < 2 && s'.lanes[0].queue.nextRelease <= 500
  {
    hide Offer, Camera;
    WholeFrame(WorldOf(s, 0), 0, Packet(1, true, HEADER).(source := 10), [], 0, 10);
    assert [] + [10] == [10];
  }

  lemma SecondStep(s: Session)
    requires Before(s, 1, [10], 1, 0) && s.lanes[0].queue.readyFrames < 2 && s.lanes[0].queue.nextRelease <= 500
    ensures var s' := Step(s, Actions()[1]);
      && Before(s', 2, [10, 11], 2, 1) && s'.lanes[0].queue.timestamp == 2
      && |s'.lanes[0].queue.items| == 2 && s'.lanes[0].queue.items[1].ssrc == ANNOUNCED
  {
    hide Offer;
    FrameStart(WorldOf(s, 0), 1, Packet(2, false, ANNOUNCED).(source := 11), [10], 11);
    assert [10] + [11] == [10, 11];
  }

  lemma ThirdStep(s: Session)
    requires Before(s, 2, [10, 11], 2, 1) && s.lanes[0].queue.timestamp == 2
    requires |s.lanes[0].queue.items| == 2 && s.lanes[0].queue.items[1].ssrc == ANNOUNCED
    ensures var lanes := Step(s, Actions()[2]).lanes;
      && |lanes| == 1 && |lanes[0].log| == 2 && lanes[0].log[0].seqNo == 10 && lanes[0].log[1].seqNo == 12
      && lanes[0].notes == [Note(ANNOUNCED, 1, true)] && lanes[0].ssrc == HEADER
  {
    hide Offer;
    NextFrame(WorldOf(s, 0), 2, Packet(3, true, HEADER).(source := 12), [10, 11], 12);
  }

  lemma HoleAfter(s: Session, actions: seq<Action>)
    requires Fresh(s) && Before(s, 0, [], 0, 0) && s.lanes[0].queue == NEW_QUEUE && |actions| == 3
    requires actions == Actions()
    ensures var lanes := Run(s, actions).lanes;
      && |lanes| == 1 && |lanes[0].log| == 2 && lanes[0].log[0].seqNo == 10 && lanes[0].log[1].seqNo == 12
      && lanes[0].notes == [Note(ANNOUNCED, 1, true)]
    ensures !UnbrokenThrough(s, actions)
  {
    hide Step, Camera, UnbrokenThrough, Actions, Run, Fresh;
    FirstStep(s);
    SecondStep(Step(s, actions[0]));
    ThirdStep(Step(Step(s, actions[0]), actions[1]));
    RunThree(s, actions);
    var e := Run(s, actions);
    assert !Stepwise(e.lanes[0].log) && !Unbroken(e.lanes[0], e.next);
    BrokenAtEnd(s, actions);
  }

  lemma {:induction false} BrokenAtEnd(s: Session, actions: seq<Action>)
    requires !AllUnbroken(Run(s, actions))
    ensures !UnbrokenThrough(s, actions)
    decreases |actions|
  {
    hide AllUnbroken, Step;
    if actions != [] { BrokenAtEnd(Step(s, actions[0]), actions[1..]); }
  }

  /** The hole is real: the two packets that were kept carry the numbers 10 and 12. */
  lemma MisnotedFrameLeavesAHole()
    ensures Fresh(OneCamera())
    ensures var lanes := Run(OneCamera(), Actions()).lanes;
      && |lanes| == 1 && |lanes[0].log| == 2 && lanes[0].log[0].seqNo == 10 && lanes[0].log[1].seqNo == 12
      && lanes[0].notes == [Note(ANNOUNCED, 1, true)]
    ensures !UnbrokenThrough(OneCamera(), Actions())
  {
    hide *;
    FreshCamera();
    HoleAfter(OneCamera(), Actions());
  }

  lemma FreshCamera()
    ensures Fresh(OneCamera()) && Before(OneCamera(), 0, [], 0, 0) && OneCamera().lanes[0].queue == NEW_QUEUE
    ensures |Actions()| == 3
  {
    assert IsNew(OneCamera().lanes[0]);
  }

  lemma RunThree(s: Session, actions: seq<Action>)
    requires |actions| == 3
    ensures Run(s, actions) == Step(Step(Step(s, actions[0]), actions[1]), actions[2])
  {
    hide Step;
    var s1 := Step(s, actions[0]);
    assert Run(s, actions) == Run(s1, actions[1..]);
    assert actions[1..][1..] == actions[2..] && actions[2..][1..] == [];
    assert Run(s1, actions[1..]) == Run(Step(s1, actions[1]), actions[2..]);
  }
}

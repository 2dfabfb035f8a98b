/**
 Outbound numbers over whole runs of a session.  The kept packets of every stream carry numbers
 without a hole exactly as long as every rollback is harmless: noted under the SSRC of its
 packets' headers, or before the stream had kept a packet and under no SSRC of another stream
 that has.
 */
module EgressNumberRuns {
  import opened Arithmetic
  import opened Pacing
  import opened SeqTranslation
  import opened PacedQueue
  import opened EgressLane
  import opened EgressNumbering
  import opened EgressRuns

  /** Each kept packet's number is one more than the one before it, and the translator hands out
      the number after the last one next. */
  ghost predicate Unbroken(lane: Lane, next: Numbering) {
    lane.log != [] ==>
      && Stepwise(lane.log)
      && lane.ssrc in next && next[lane.ssrc] == (lane.log[|lane.log| - 1].seqNo + 1) % SEQ_MOD
  }

  ghost predicate Stepwise(log: seq<Logged>) {
    forall i | 0 < i < |log| :: log[i].seqNo == (log[i - 1].seqNo + 1) % SEQ_MOD
  }

  ghost predicate AllUnbroken(s: Session) {
    forall k {:trigger Unbroken(s.lanes[k], s.next)} | 0 <= k < |s.lanes| :: Unbroken(s.lanes[k], s.next)
  }

  /** At no point of the run does a stream have a hole. */
  ghost predicate UnbrokenThrough(s: Session, actions: seq<Action>)
    decreases |actions|
  {
    AllUnbroken(s) && (actions == [] || UnbrokenThrough(Step(s, actions[0]), actions[1..]))
  }

  /** A rolled-back frame of stream `k` was noted under the SSRC its packets were numbered under, or
      came before the stream kept a packet and takes no numbers from another stream with packets. */
  ghost predicate Harmless(s: Session, k: nat, note: Note)
    requires k < |s.lanes|
  {
    || Matches(note, s.lanes[k].ssrc)
    || (!note.late && forall j | 0 <= j < |s.lanes| && Matches(note, s.lanes[j].ssrc) :: s.lanes[j].log == [])
  }

  /** Every frame rolled back from `s` to `s'` was rolled back harmlessly. */
  ghost predicate HarmlessStep(s: Session, s': Session)
    requires |s'.lanes| == |s.lanes|
  {
    forall k, i | 0 <= k < |s.lanes| && |s.lanes[k].notes| <= i < |s'.lanes[k].notes| ::
      Harmless(s, k, s'.lanes[k].notes[i])
  }

  /** Every frame that is rolled back during the run is rolled back harmlessly. */
  ghost predicate HarmlessThrough(s: Session, actions: seq<Action>)
    requires SessionInv(s)
    decreases |actions|
  {
    actions != [] ==>
      var s' := Step(s, actions[0]);
      StepKeeps(s, actions[0]);
      HarmlessStep(s, s') && HarmlessThrough(s', actions[1..])
  }

  // ---------------------------------------------------------------------- one stream

  /** Tracked, and nothing strayed. */
  ghost predicate Clear(lane: Lane, next: Numbering) { Tracked(lane, next) && Strays(lane.notes, lane.ssrc) == 0 }

  ghost predicate AllClear(s: Session) {
    forall k {:trigger Clear(s.lanes[k], s.next)} | 0 <= k < |s.lanes| :: Clear(s.lanes[k], s.next)
  }

  lemma {:induction false} StepwiseIs(log: seq<Logged>, i: nat)
    requires Stepwise(log) && i < |log|
    ensures (log[i].seqNo + 1) % SEQ_MOD == (log[0].seqNo + i + 1) % SEQ_MOD
  {
    if i > 0 {
      StepwiseIs(log, i - 1);
      NextNumber(log[i - 1].seqNo + 1, log[0].seqNo + i);
    }
  }

  lemma NextNumber(a: nat, b: nat)
    requires a % SEQ_MOD == b % SEQ_MOD
    ensures (a % SEQ_MOD + 1) % SEQ_MOD == (b + 1) % SEQ_MOD
  {
  }

  lemma NoWrap(x: nat, n: nat)
    requires 0 < n < SEQ_MOD
    ensures (x + n) % SEQ_MOD != x % SEQ_MOD && (x - n) % SEQ_MOD != x % SEQ_MOD
  {
  }

  /** A tracked stream is unbroken exactly if nothing strayed. */
  lemma TrackedMeans(lane: Lane, next: Numbering)
    requires Tracked(lane, next) && Strays(lane.notes, lane.ssrc) < SEQ_MOD
    ensures Unbroken(lane, next) <==> Strays(lane.notes, lane.ssrc) == 0
  {
    hide Strays;
    var log, n := lane.log, Strays(lane.notes, lane.ssrc);
    if log != [] {
      if n == 0 {
        ConsecutiveIsStepwise(log);
      } else if Stepwise(log) {
        StepwiseIs(log, |log| - 1);
        NoWrap(log[0].seqNo + |log|, n);
      }
    }
  }

  lemma ConsecutiveIsStepwise(log: seq<Logged>)
    requires log != [] && Consecutive(log)
    ensures Stepwise(log)
    ensures (log[|log| - 1].seqNo + 1) % SEQ_MOD == (log[0].seqNo + |log|) % SEQ_MOD
  {
    forall i | 0 < i < |log| ensures log[i].seqNo == (log[i - 1].seqNo + 1) % SEQ_MOD {
      assert log[i - 1].seqNo == (log[0].seqNo + (i - 1)) % SEQ_MOD;
    }
  }

  /** What new notes add to the sums, if every one of them counts. */
  lemma {:induction false} SumsOf(notes: seq<Note>, more: seq<Note>, u: Ssrc)
    requires notes <= more && forall i | |notes| <= i < |more| :: more[i].count > 0
    ensures 0 <= Strays(more, u) - Strays(notes, u) <= Rolled(more) - Rolled(notes)
    ensures 0 <= Reclaimed(more, u) - Reclaimed(notes, u) <= Rolled(more) - Rolled(notes)
    ensures Strays(more, u) == Strays(notes, u) <==>
      forall i | |notes| <= i < |more| :: !more[i].late || Matches(more[i], u)
    ensures Reclaimed(more, u) == Reclaimed(notes, u) <==>
      forall i | |notes| <= i < |more| :: !Matches(more[i], u)
    decreases |more|
  {
    hide Matches;
    if |notes| == |more| {
      assert notes == more;
    } else {
      var rest := more[..|more| - 1];
      assert forall i | 0 <= i < |rest| :: rest[i] == more[i];
      SumsOf(notes, rest, u);
    }
  }

  // ------------------------------------------------------------------------ one step

  /** What a step of stream `k` means for the session's numbers. */
  lemma LaneStepNumbers(s: Session, k: nat, w: World, packets: nat)
    requires SessionInv(s) && AllClear(s) && k < |s.lanes|
    requires Moves(WorldOf(s, k), w, 1, false) && WorldInv(w, packets)
    ensures var s' := Put(s, k, w, packets);
      && (HarmlessStep(s, s') ==> AllClear(s'))
      && (!HarmlessStep(s, s') ==> !AllUnbroken(s'))
  {
    hide WorldInv, SessionInv, Moves, AllUnbroken, AllClear, Matches;
    var s' := Put(s, k, w, packets);
    if HarmlessStep(s, s') {
      HarmlessIsClear(s, k, w, packets);
    } else {
      var j, i :| 0 <= j < |s.lanes| && |s.lanes[j].notes| <= i < |s'.lanes[j].notes|
                  && !Harmless(s, j, s'.lanes[j].notes[i]);
      assert j == k;
      HarmBreaks(s, k, w, packets, i);
    }
  }

  lemma LaneFacts(s: Session, k: nat, w: World)
    requires SessionInv(s) && AllClear(s) && k < |s.lanes| && Moves(WorldOf(s, k), w, 1, false)
    ensures Tracked(w.lane, w.next) && w.lane.ssrc == s.lanes[k].ssrc && Elsewhere(WorldOf(s, k), w)
    ensures s.lanes[k].notes <= w.lane.notes
    ensures forall i | |s.lanes[k].notes| <= i < |w.lane.notes| :: w.lane.notes[i].count > 0
    ensures Rolled(w.lane.notes) - Rolled(s.lanes[k].notes) <= CAPACITY + 1
    ensures Strays(s.lanes[k].notes, s.lanes[k].ssrc) == 0
    ensures forall j | 0 <= j < |s.lanes| && j != k :: s.lanes[j].ssrc != s.lanes[k].ssrc
  {
    hide QueueInv, Mirrors, Ordered, SentInOrder, Framed, BooksOk, Strays, Own, TotalHeld, TotalCharged, Started,
        Tracked, Rolled, Elsewhere;
    assert LaneInv(s.lanes[k], s.next, s.packets) && Clear(s.lanes[k], s.next);
    QueueSizes(s.lanes[k].queue);
    DistinctSsrcs(s, k);
  }

  lemma DistinctSsrcs(s: Session, k: nat)
    requires k < |s.lanes| && forall i, j | 0 <= i < j < |s.lanes| :: s.lanes[i].ssrc != s.lanes[j].ssrc
    ensures forall j | 0 <= j < |s.lanes| && j != k :: s.lanes[j].ssrc != s.lanes[k].ssrc
  {
  }

  lemma HarmlessIsClear(s: Session, k: nat, w: World, packets: nat)
    requires SessionInv(s) && AllClear(s) && k < |s.lanes| && Moves(WorldOf(s, k), w, 1, false)
    requires HarmlessStep(s, Put(s, k, w, packets))
    ensures AllClear(Put(s, k, w, packets))
  {
    hide SessionInv, Moves, Tracked, Strays, Reclaimed, Rolled;
    var s' := Put(s, k, w, packets);
    LaneFacts(s, k, w);
    var notes, notes' := s.lanes[k].notes, w.lane.notes;
    SumsOf(notes, notes', w.lane.ssrc);
    forall i | |notes| <= i < |notes'| ensures Harmless(s, k, notes'[i]) { assert s'.lanes[k].notes[i] == notes'[i]; }
    forall j | 0 <= j < |s.lanes| ensures Clear(s'.lanes[j], s'.next) {
      if j != k {
        var u := s.lanes[j].ssrc;
        assert Clear(s.lanes[j], s.next);
        SumsOf(notes, notes', u);
        if Reclaimed(notes', u) > Reclaimed(notes, u) {
          var i :| |notes| <= i < |notes'| && Matches(notes'[i], u);
          assert Harmless(s, k, notes'[i]) && s.lanes[j].log == [];
        }
        OtherClear(s.lanes[j], s.next, s'.next, Reclaimed(notes', u) - Reclaimed(notes, u));
      }
    }
  }

  lemma OtherClear(lane: Lane, next: Numbering, next': Numbering, d: int)
    requires Clear(lane, next) && (d > 0 ==> lane.log == [])
    requires lane.ssrc in next' <==> lane.ssrc in next
    requires lane.ssrc in next ==> next'[lane.ssrc] == Back(next[lane.ssrc], d)
    ensures Clear(lane, next')
  {
  }

  lemma HarmBreaks(s: Session, k: nat, w: World, packets: nat, i: nat)
    requires SessionInv(s) && AllClear(s) && k < |s.lanes| && Moves(WorldOf(s, k), w, 1, false)
    requires |s.lanes[k].notes| <= i < |w.lane.notes| && !Harmless(s, k, w.lane.notes[i])
    ensures !AllUnbroken(Put(s, k, w, packets))
  {
    hide SessionInv, Moves, Tracked, Strays, Reclaimed, Rolled, Unbroken;
    var s', note := Put(s, k, w, packets), w.lane.notes[i];
    LaneFacts(s, k, w);
    if note.late {
      SumsOf(s.lanes[k].notes, w.lane.notes, w.lane.ssrc);
      TrackedMeans(w.lane, w.next);
      assert !Unbroken(s'.lanes[k], s'.next);
    } else {
      var j :| 0 <= j < |s.lanes| && Matches(note, s.lanes[j].ssrc) && s.lanes[j].log != [];
      var u := s.lanes[j].ssrc;
      SumsOf(s.lanes[k].notes, w.lane.notes, u);
      assert Clear(s.lanes[j], s.next) && j != k;
      KnownWithLog(s.lanes[j], s.next);
      TakenFrom(s.lanes[j], s.next, s'.next, Reclaimed(w.lane.notes, u) - Reclaimed(s.lanes[k].notes, u));
      assert !Unbroken(s'.lanes[j], s'.next);
    }
  }

  lemma KnownWithLog(lane: Lane, next: Numbering)
    requires Tracked(lane, next) && lane.log != []
    ensures lane.ssrc in next
  {
  }

  lemma TakenFrom(lane: Lane, next: Numbering, next': Numbering, d: nat)
    requires Clear(lane, next) && lane.log != [] && 0 < d < SEQ_MOD
    requires lane.ssrc in next && lane.ssrc in next' && next'[lane.ssrc] == Back(next[lane.ssrc], d)
    ensures !Unbroken(lane, next')
  {
    hide Strays, Consecutive;
    TrackedMeans(lane, next);
    NoWrap(next[lane.ssrc], d);
  }

  lemma SameNumbers(s: Session, s': Session)
    requires s'.lanes == s.lanes && AllClear(s)
    requires forall k | 0 <= k < |s.lanes| :: var u := s.lanes[k].ssrc;
      (u in s'.next <==> u in s.next) && (u in s.next ==> s'.next[u] == s.next[u])
    ensures AllClear(s') && HarmlessStep(s, s')
  {
    hide Clear, Harmless;
    forall k | 0 <= k < |s.lanes| ensures Clear(s'.lanes[k], s'.next) {
      assert Clear(s.lanes[k], s.next);
      ClearAlike(s.lanes[k], s.next, s'.next);
    }
  }

  lemma ClearAlike(lane: Lane, next: Numbering, next': Numbering)
    requires Clear(lane, next) && (lane.ssrc in next' <==> lane.ssrc in next)
    requires lane.ssrc in next ==> next'[lane.ssrc] == next[lane.ssrc]
    ensures Clear(lane, next')
  {
  }

  /** The stream a step acts on, what becomes of it, and whether it queues under its own SSRC. */
  lemma StepIs(s: Session, a: Action, own: bool) returns (k: nat, w: World)
    requires SessionInv(s) && (a.OfferPacket? || a.SchedulerReject? || a.DrainHead?) && a.k < |s.lanes|
    requires own && a.OfferPacket? ==> a.pkt.noted == s.lanes[a.k].ssrc
    ensures k == a.k && Moves(WorldOf(s, k), w, 1, own) && WorldInv(w, Step(s, a).packets)
    ensures Step(s, a) == Put(s, k, w, Step(s, a).packets)
  {
    hide LaneInv, BooksOk, Offer, Undo, DrainOne, Moves, TotalHeld, TotalCharged, Shares;
    k := a.k;
    var was := WorldOf(s, k);
    assert LaneInv(s.lanes[k], s.next, s.packets);
    match a {
      case OfferPacket(_, pkt, number) =>
        w := Offer(was, s.packets, pkt.(source := number));
        OfferKeeps(was, s.packets, pkt.(source := number));
        OfferMoves(was, s.packets, pkt.(source := number), own);
      case SchedulerReject(_) =>
        w := Undo(was);
        UndoKeeps(was, s.packets);
        UndoMoves(was, s.packets, own);
        MoreMoves(was, w, own);
      case DrainHead(_, valid, now) =>
        w := DrainOne(was, valid, now);
        DrainOneKeeps(was, valid, now, s.packets);
        DrainMoves(was, valid, now, own);
        MoreMoves(was, w, own);
    }
  }

  lemma StepNumbers(s: Session, a: Action)
    requires SessionInv(s) && AllClear(s)
    ensures var s' := Step(s, a);
      && |s'.lanes| == |s.lanes|
      && (HarmlessStep(s, s') ==> AllClear(s'))
      && (!HarmlessStep(s, s') ==> !AllUnbroken(s'))
  {
    hide SessionInv, AllClear, Moves, WorldInv, BookRate, HarmlessStep, AllUnbroken, Direct;
    StepKeeps(s, a);
    if (a.OfferPacket? || a.SchedulerReject? || a.DrainHead?) && a.k < |s.lanes| {
      var k, w := StepIs(s, a, false);
      LaneStepNumbers(s, k, w, Step(s, a).packets);
    } else if a.SendDirect? && !OwnsLane(s, a.ssrc) {
      DirectNumbers(s, a.ssrc, a.number, a.cls, a.bytes, a.allowDrop, a.encrypted, a.accepted, a.now);
      SameNumbers(s, Step(s, a));
    } else {
      RateNumbers(s, a);
      SameNumbers(s, Step(s, a));
    }
  }

  lemma DirectNumbers(s: Session, ssrc: Ssrc, number: Seq16, cls: PacerClass, bytes: nat, allowDrop: bool,
                      encrypted: bool, accepted: bool, now: int)
    requires !OwnsLane(s, ssrc)
    ensures var s' := Direct(s, ssrc, number, cls, bytes, allowDrop, encrypted, accepted, now);
      && s'.lanes == s.lanes
      && forall k | 0 <= k < |s.lanes| :: var u := s.lanes[k].ssrc;
           (u in s'.next <==> u in s.next) && (u in s.next ==> s'.next[u] == s.next[u])
  {
    hide BookReserve, BookCancel, BookCommit;
    forall k | 0 <= k < |s.lanes| ensures s.lanes[k].ssrc != ssrc {}
  }

  lemma RateNumbers(s: Session, a: Action)
    requires !((a.OfferPacket? || a.SchedulerReject? || a.DrainHead?) && a.k < |s.lanes|)
    requires !(a.SendDirect? && !OwnsLane(s, a.ssrc))
    ensures Step(s, a).lanes == s.lanes && Step(s, a).next == s.next
  {
    hide BookRate;
  }

  // ------------------------------------------------------------------------ all runs

  lemma ClearIsUnbroken(s: Session)
    requires AllClear(s)
    ensures AllUnbroken(s)
  {
    hide Tracked, Strays, Unbroken;
    forall k | 0 <= k < |s.lanes| ensures Unbroken(s.lanes[k], s.next) {
      assert Clear(s.lanes[k], s.next);
      TrackedMeans(s.lanes[k], s.next);
    }
  }

  lemma {:induction false} UnbrokenIffHarmless(s: Session, actions: seq<Action>)
    requires SessionInv(s) && AllClear(s)
    ensures UnbrokenThrough(s, actions) <==> HarmlessThrough(s, actions)
    decreases |actions|
  {
    hide SessionInv, AllClear, AllUnbroken, Step, HarmlessStep;
    ClearIsUnbroken(s);
    if actions != [] {
      StepKeeps(s, actions[0]);
      StepNumbers(s, actions[0]);
      if HarmlessStep(s, Step(s, actions[0])) { UnbrokenIffHarmless(Step(s, actions[0]), actions[1..]); }
    }
  }

  lemma FreshNumbers(s: Session)
    requires Fresh(s)
    ensures SessionInv(s) && AllClear(s)
  {
    FreshIsOk(s);
    hide SessionInv;
    forall k | 0 <= k < |s.lanes| ensures Clear(s.lanes[k], s.next) { assert IsNew(s.lanes[k]); }
  }

  /** In every run: the kept packets of every stream always carry consecutive numbers, and the
      translator always hands out the number after the last kept packet's, if and only if every
      rolled-back frame was noted under the SSRC its packets were numbered under, or was rolled
      back before its stream kept a packet and noted under no other stream's SSRC that has. */
  lemma NumbersAreUnbrokenIffHarmless(s: Session, actions: seq<Action>)
    requires Fresh(s)
    ensures SessionInv(s)
    ensures UnbrokenThrough(s, actions) <==> HarmlessThrough(s, actions)
  {
    FreshNumbers(s);
    UnbrokenIffHarmless(s, actions);
  }

  // ------------------------------------------------------- queueing under the own SSRC

  ghost predicate AllOwn(s: Session) {
    forall k {:trigger Own(s.lanes[k])} | 0 <= k < |s.lanes| :: Own(s.lanes[k])
  }

  /** Every packet offered to a stream announces the SSRC of its header. */
  ghost predicate OwnInputs(s: Session, actions: seq<Action>) {
    forall i | 0 <= i < |actions| :: OwnInput(s, actions[i])
  }

  predicate OwnInput(s: Session, a: Action) {
    a.OfferPacket? && a.k < |s.lanes| ==> a.pkt.noted == s.lanes[a.k].ssrc
  }

  lemma OwnStep(s: Session, a: Action)
    requires SessionInv(s) && AllOwn(s) && OwnInput(s, a)
    ensures var s' := Step(s, a);
      && AllOwn(s') && |s'.lanes| == |s.lanes| && HarmlessStep(s, s')
      && forall k | 0 <= k < |s.lanes| :: s'.lanes[k].ssrc == s.lanes[k].ssrc
  {
    hide SessionInv, Own, Tracked, Elsewhere, Rolled, WorldInv, Direct;
    var s' := Step(s, a);
    StepKeeps(s, a);
    if (a.OfferPacket? || a.SchedulerReject? || a.DrainHead?) && a.k < |s.lanes| {
      var k, w := StepIs(s, a, true);
      assert Own(s.lanes[k]);
    } else if a.SendDirect? && !OwnsLane(s, a.ssrc) {
      DirectNumbers(s, a.ssrc, a.number, a.cls, a.bytes, a.allowDrop, a.encrypted, a.accepted, a.now);
    } else {
      RateNumbers(s, a);
    }
    forall k | 0 <= k < |s.lanes|
      ensures Own(s'.lanes[k]) && s'.lanes[k].ssrc == s.lanes[k].ssrc
    {
      assert Own(s.lanes[k]);
    }
  }

  lemma {:induction false} OwnRun(s: Session, actions: seq<Action>)
    requires SessionInv(s) && AllOwn(s) && OwnInputs(s, actions)
    ensures HarmlessThrough(s, actions)
    decreases |actions|
  {
    hide SessionInv, AllOwn, Step, HarmlessStep;
    if actions != [] {
      assert OwnInput(s, actions[0]);
      OwnStep(s, actions[0]);
      StepKeeps(s, actions[0]);
      forall i | 0 <= i < |actions| - 1
        ensures OwnInput(Step(s, actions[0]), actions[1..][i])
      {
        assert OwnInput(s, actions[i + 1]);
      }
      OwnRun(Step(s, actions[0]), actions[1..]);
    }
  }

  lemma {:induction false} ClearAtEnd(s: Session, actions: seq<Action>)
    requires SessionInv(s) && AllClear(s) && HarmlessThrough(s, actions)
    ensures AllClear(Run(s, actions))
    decreases |actions|
  {
    hide SessionInv, AllClear, Step, HarmlessStep;
    if actions != [] {
      StepKeeps(s, actions[0]);
      StepNumbers(s, actions[0]);
      ClearAtEnd(Step(s, actions[0]), actions[1..]);
    }
  }

  /** In every run in which routes announce the SSRC of the packets they carry: the packets of a
      stream that were queued and not rolled back carry consecutive 16-bit numbers, and the
      translator will hand out the next one. */
  lemma NumbersHaveNoHoles(s: Session, actions: seq<Action>, k: nat, i: nat)
    requires Fresh(s) && k < |s.lanes| && OwnInputs(s, actions) && forall j | 0 <= j < |s.lanes| :: s.lanes[j].ssrc != 0
    ensures k < |Run(s, actions).lanes|
    ensures var e := Run(s, actions); var log := e.lanes[k].log;
      i < |log| ==>
        && log[i].seqNo == (log[0].seqNo + i) % SEQ_MOD
        && e.lanes[k].ssrc in e.next && e.next[e.lanes[k].ssrc] == (log[0].seqNo + |log|) % SEQ_MOD
  {
    hide Run, SessionInv, Strays;
    FreshNumbers(s);
    forall j | 0 <= j < |s.lanes| ensures Own(s.lanes[j]) { assert IsNew(s.lanes[j]); }
    OwnRun(s, actions);
    ClearAtEnd(s, actions);
    RunKeeps(s, actions);
    assert Clear(Run(s, actions).lanes[k], Run(s, actions).next);
  }
}

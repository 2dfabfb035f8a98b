/**
 The scheduler as the source writes it: fields changed one after the other, with a return at
 the first reason to refuse.  Every method is proved to do what the functions of
 `LayerScheduler` say.
 */
module LayerSchedulerMachine {
  import Pacing
  import opened LayerScheduler

  class Machine {
    const screen: bool
    var targetTid: nat
    var currentTid: nat
    var lastChange: int
    var needsKeyframe: bool
    var picture: Picture
    var key: KeyState
    var up: UpState
    var pace: PaceState
    var order: SeqState

    ghost function State(): Scheduler
      reads this
    {
      Scheduler(screen, targetTid, currentTid, lastChange, needsKeyframe, picture, key, up, pace, order)
    }

    constructor (screen: bool)
      ensures State() == NewScheduler(screen)
    {
      this.screen := screen;
      targetTid, currentTid, lastChange, needsKeyframe := TOP_TID, if screen then TOP_TID else 0, 0, true;
      picture := Picture(false, 0, false, false, false);
      key, up, pace, order := KeyState(false, false, 0), UpState(false, false, 0, 0), PaceState(false, 0, 0),
          SeqState(false, 0, false);
    }

    method Begin(ts: nat)
      modifies this
      ensures State() == BeginPicture(old(State()), ts)
    {
      if picture.valid && picture.ts == ts { return; }
      if picture.valid && picture.started && (!picture.completed || picture.failed) { needsKeyframe := true; }
      if key.active {
        needsKeyframe := true;
        key := KeyState(false, true, key.ts);
      }
      up := UpState(false, false, 0, 0);
      pace := pace.(active := false);
      picture := Picture(true, ts, false, false, false);
      order := order.(corrupted := false);
    }

    /** The sequence check; it fails at a gap. */
    method CheckSequence(d: Descriptor) returns (ok: bool)
      modifies this`order, this`needsKeyframe
      ensures State() == NoteSequence(old(State()), d) && ok == !Gap(old(order), d)
    {
      if !d.b {
        if !order.known || d.seqNo != order.expected || order.corrupted {
          needsKeyframe := true;
          order := SeqState(order.known, Follows(d.seqNo), true);
          return false;
        }
        order := order.(expected := Follows(d.seqNo));
      } else if !Keyframe(d) {
        if order.known && d.seqNo != order.expected {
          needsKeyframe := true;
          order := SeqState(order.known, Follows(d.seqNo), true);
          return false;
        }
        order := SeqState(order.known, Follows(d.seqNo), false);
      } else {
        order := SeqState(true, Follows(d.seqNo), false);
      }
      ok := true;
    }

    /** The layer and keyframe checks. */
    method JudgeLayer(d: Descriptor) returns (reason: Reason, startKey: bool, keyPacket: bool)
      ensures reason == LayerRefusal(State(), d)
      ensures startKey == (reason == NoReason && StartsKeyframe(State(), d))
      ensures keyPacket == (reason == NoReason && OfKeyframe(State(), d))
    {
      startKey, keyPacket := false, false;
      if picture.failed || (!screen && d.tid > targetTid) { return OverTargetOrFailed, false, false; }
      if !d.b && !picture.started { return MissingFrameStart, false, false; }
      if needsKeyframe {
        if !key.active {
          if !Keyframe(d) { return KeyframeRequired, false, false; }
          startKey := true;
        } else if key.failed || key.ts != d.ts || d.p {
          return KeyframeMismatch, false, false;
        }
        keyPacket := true;
      } else if Keyframe(d) || key.active {
        if !key.active {
          startKey, keyPacket := true, true;
        } else if key.ts == d.ts && !d.p {
          keyPacket := true;
        }
      }
      reason := NoReason;
    }

    /** The temporal checks. */
    method JudgeTemporal(d: Descriptor) returns (reason: Reason, startUp: bool)
      ensures reason == TemporalRefusal(State(), d)
      ensures startUp == (reason == NoReason && AboveCurrent(State(), d) && !up.active)
    {
      startUp := false;
      if !screen && d.tid > currentTid {
        if up.active {
          if up.ts != d.ts || up.tid != d.tid || up.failed { return BadTemporalTransition, false; }
        } else {
          if !d.b || !d.u { return NoTemporalSwitch, false; }
          startUp := true;
        }
      }
      reason := NoReason;
    }

    /** The pacer class and the checks that go with it. */
    method JudgePacing(d: Descriptor, transition: bool) returns (reason: Reason, cls: Pacing.PacerClass)
      requires transition == (OfKeyframe(State(), d) || AboveCurrent(State(), d))
      ensures cls == ClassOf(State(), d) && reason == PacingRefusal(State(), d)
    {
      var continues := !d.b && pace.active && pace.ts == d.ts && pace.tid == d.tid;
      cls := if d.tid > 0 then Pacing.VideoEnh else Pacing.VideoBase;
      if (transition || (!d.b && picture.started)) && !continues { cls := Pacing.VideoTransition; }
      if cls == Pacing.VideoEnh {
        if d.b {
          if pace.active { return PacerOverlap, cls; }
        } else if !(pace.active && pace.ts == d.ts && pace.tid == d.tid) {
          return PacerOrphan, cls;
        }
      }
      reason := NoReason;
    }

    /** Judges a packet, one check after the other. */
    method JudgePacket(d: Descriptor) returns (n: Decision)
      ensures n == Judge(State(), d)
    {
      hide LayerRefusal, TemporalRefusal, PacingRefusal, ClassOf, OfKeyframe, StartsKeyframe, AboveCurrent;
      var first := if d.tid > 0 then Pacing.VideoEnh else Pacing.VideoBase;
      var reason, startKey, keyPacket := JudgeLayer(d);
      if reason != NoReason { return Decision(d, reason, false, false, false, false, false, false, false, first); }
      var startUp;
      reason, startUp := JudgeTemporal(d);
      if reason != NoReason {
        return Decision(d, reason, false, false, startKey, keyPacket, false, false, false, first);
      }
      var above := Above(d);
      var cls;
      reason, cls := JudgePacing(d, keyPacket || above);
      var enhanced := cls == Pacing.VideoEnh;
      var forward := reason == NoReason;
      n := Decision(d, reason, forward, forward && d.e, startKey, keyPacket, startUp, enhanced && d.b,
                    enhanced && d.e, cls);
    }

    method Above(d: Descriptor) returns (above: bool)
      ensures above == AboveCurrent(State(), d)
    {
      above := !screen && d.tid > currentTid;
    }

    method PreparePacket(d: Descriptor) returns (n: Decision)
      modifies this
      ensures State() == Noted(old(State()), d) && n == Decide(old(State()), d)
    {
      hide Judge, BeginPicture;
      Begin(d.ts);
      var ok := CheckSequence(d);
      if !ok {
        return GapDecision(d);
      }
      if screen {
        targetTid, currentTid := TOP_TID, TOP_TID;
      } else if targetTid < currentTid {
        currentTid := targetTid;
      }
      n := JudgePacket(d);
    }

    /** The packet starts what the decision says it starts. */
    method CommitStart(n: Decision)
      modifies this`order, this`picture, this`key, this`up, this`pace
      ensures order == SeqState(true, Follows(n.d.seqNo), old(order.corrupted))
      ensures picture ==
        old(picture).(started := old(picture.started) || n.d.b,
                      completed := old(picture.completed) || (n.d.e && !old(picture.failed)))
      ensures key == if n.startKey then KeyState(true, false, n.d.ts) else old(key)
      ensures up == if n.startUp then UpState(true, false, n.d.tid, n.d.ts) else old(up)
      ensures pace == if n.paceStart && !n.paceEnd then PaceState(true, n.d.ts, n.d.tid)
                      else if n.paceEnd && old(Paced(State(), n.d.ts, n.d.tid)) then old(pace).(active := false)
                      else old(pace)
    {
      var d := n.d;
      order := SeqState(true, Follows(d.seqNo), order.corrupted);
      if d.b { picture := picture.(started := true); }
      if n.startKey { key := KeyState(true, false, d.ts); }
      if n.startUp { up := UpState(true, false, d.tid, d.ts); }
      if n.paceStart && !n.paceEnd {
        pace := PaceState(true, d.ts, d.tid);
      } else if n.paceEnd && pace.active && pace.ts == d.ts && pace.tid == d.tid {
        pace := pace.(active := false);
      }
      if d.e && !picture.failed { picture := picture.(completed := true); }
    }

    /** The end of a keyframe settles whether one is still needed. */
    method CommitKeyframe(n: Decision) returns (complete: bool)
      modifies this`key, this`needsKeyframe, this`targetTid, this`currentTid
      ensures var ends := n.keyPacket && n.d.e;
        && complete == (ends && old(key).active && !old(key).failed && old(key).ts == n.d.ts && !picture.failed)
        && needsKeyframe == (if ends then !complete else old(needsKeyframe))
        && key == (if ends then KeyState(false, !complete, old(key.ts)) else old(key))
        && targetTid == (if complete && screen then TOP_TID else old(targetTid))
        && currentTid == (if complete && screen then TOP_TID else old(currentTid))
    {
      complete := false;
      if n.keyPacket && n.d.e {
        complete := key.active && !key.failed && key.ts == n.d.ts && !picture.failed;
        needsKeyframe := !complete;
        key := KeyState(false, !complete, key.ts);
        if complete && screen { targetTid, currentTid := TOP_TID, TOP_TID; }
      }
    }

    /** The end of a frame completes the switch it started. */
    method CommitTemporal(d: Descriptor)
      modifies this`up, this`currentTid
      ensures var arrives := old(up).active && old(up).ts == d.ts && old(up).tid == d.tid && d.e;
        && up == (if arrives then old(up).(active := false, failed := false) else old(up))
        && currentTid ==
             (if arrives && !old(up).failed && !picture.failed && d.tid <= targetTid then d.tid else old(currentTid))
    {
      if up.active && up.ts == d.ts && up.tid == d.tid && d.e {
        if !up.failed && !picture.failed && d.tid <= targetTid { currentTid := d.tid; }
        up := up.(active := false, failed := false);
      }
    }

    method CommitPacket(n: Decision)
      modifies this
      ensures State() == Commit(old(State()), n)
    {
      if !n.forward || !picture.valid || picture.ts != n.d.ts { return; }
      CommitStart(n);
      var _ := CommitKeyframe(n);
      CommitTemporal(n.d);
    }

    /** The picture and its keyframe fail with the packet. */
    method FailPicture(n: Decision)
      modifies this`picture, this`pace, this`key, this`needsKeyframe
      ensures var ofKey := n.keyPacket || (old(key).active && old(key).ts == n.d.ts);
        && picture == old(picture).(failed := true)
        && pace == (if old(Paced(State(), n.d.ts, n.d.tid)) then old(pace).(active := false) else old(pace))
        && key == (if ofKey then KeyState(false, true, old(key.ts)) else old(key))
        && needsKeyframe == (old(needsKeyframe) || ofKey)
    {
      picture := picture.(failed := true);
      if pace.active && pace.ts == n.d.ts && pace.tid == n.d.tid { pace := pace.(active := false); }
      if n.keyPacket || (key.active && key.ts == n.d.ts) {
        needsKeyframe := true;
        key := KeyState(false, true, key.ts);
      }
    }

    method RejectPacket(n: Decision)
      modifies this
      ensures State() == Reject(old(State()), n)
    {
      if !picture.valid || picture.ts != n.d.ts { return; }
      var d := n.d;
      FailPicture(n);
      var expectedReject := Breaks(n.reason) || picture.started;
      if screen || expectedReject { needsKeyframe := true; }
      if n.reason == SequenceGap { order := order.(corrupted := true); }
      if (n.startUp || up.active) && up.ts == d.ts && up.tid == d.tid { up := up.(failed := true); }
    }

    /** Picks the highest rung the rate allows, with the source's two searches from the top. */
    method SetTarget(bps: nat, now: int)
      modifies this`lastChange, this`targetTid
      ensures State() == SetBitrate(old(State()), bps, now)
    {
      var chosen := 2;
      while chosen >= 0 && bps < RungRate(chosen) * 6 / 5
        invariant -1 <= chosen <= 2
        invariant forall i | chosen < i <= 2 :: bps < RungRate(i) * 6 / 5
      {
        chosen := chosen - 1;
      }
      assert chosen == Reached(bps);
      var target := if chosen >= 0 then chosen else 0;
      if lastChange != 0 && chosen < 2 {
        var current := 2;
        while current >= 0 && targetTid < current
          invariant 0 <= current <= 2
          invariant current < 2 ==> targetTid <= current
        {
          current := current - 1;
        }
        assert current == if targetTid >= 2 then 2 else targetTid;
        if current > chosen && bps >= RungRate(current) { target := current; }
      }
      if screen { target := TOP_TID; }
      if target == targetTid { return; }
      if !screen && target > targetTid && lastChange != 0 && now - lastChange < UP_DWELL_US { return; }
      lastChange := now;
      targetTid := target;
    }

    method ResetScheduler()
      modifies this
      ensures State() == ResetForKeyframe(old(State()))
    {
      needsKeyframe := true;
      key := KeyState(false, false, key.ts);
      up := up.(active := false, failed := false);
      pace := pace.(active := false);
      order := SeqState(false, 0, false);
    }
  }
}

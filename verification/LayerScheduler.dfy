/**
 The VP9 layer scheduler (src/media/svc/layer_scheduler.c) for single-spatial-layer input: the
 layer ladder only ever targets spatial layer 0, so the per-layer masks are one bit each and
 no spatial transition starts.
 */
module LayerScheduler {
  import opened Arithmetic
  import opened Pacing

  const TOP_TID: nat := 2
  const UP_DWELL_US := 3_000_000

  /** The payload descriptor of a packet. */
  datatype Descriptor = Descriptor(ts: nat, seqNo: nat, tid: nat, p: bool, u: bool, b: bool, e: bool)

  /** The first packet of a frame that refers to no other. */
  predicate Keyframe(d: Descriptor) { d.b && !d.p }

  datatype Reason =
    | NoReason | OverTargetOrFailed | MissingFrameStart | KeyframeRequired | KeyframeMismatch
    | BadTemporalTransition | NoTemporalSwitch | PacerOverlap | PacerOrphan | SequenceGap

  /** The picture packets belong to while the timestamp stays the same. */
  datatype Picture = Picture(valid: bool, ts: nat, started: bool, completed: bool, failed: bool)

  /** A keyframe being received. */
  datatype KeyState = KeyState(active: bool, failed: bool, ts: nat)

  /** A switch to a higher temporal layer under way. */
  datatype UpState = UpState(active: bool, failed: bool, tid: nat, ts: nat)

  /** An enhancement frame the pacer sees as a whole. */
  datatype PaceState = PaceState(active: bool, ts: nat, tid: nat)

  datatype SeqState = SeqState(known: bool, expected: nat, corrupted: bool)

  datatype Scheduler = Scheduler(
    screen: bool, targetTid: nat, currentTid: nat, lastChange: int, needsKeyframe: bool,
    picture: Picture, key: KeyState, up: UpState, pace: PaceState, order: SeqState)

  datatype Decision = Decision(
    d: Descriptor, reason: Reason, forward: bool, marker: bool, startKey: bool, keyPacket: bool, startUp: bool,
    paceStart: bool, paceEnd: bool, cls: PacerClass)

  // -------------------------------------------------------------------------- prepare

  predicate NewPicture(s: Scheduler, ts: nat) { !s.picture.valid || s.picture.ts != ts }

  /** A new timestamp ends the picture; one that was started must have been completed. */
  function BeginPicture(s: Scheduler, ts: nat): Scheduler {
    var new' := NewPicture(s, ts);
    var broken := s.picture.valid && s.picture.started && (!s.picture.completed || s.picture.failed);
    s.(needsKeyframe := s.needsKeyframe || (new' && (broken || s.key.active)),
       key := if new' then KeyState(false, s.key.failed || s.key.active, s.key.ts) else s.key,
       up := if new' then UpState(false, false, 0, 0) else s.up,
       pace := if new' then s.pace.(active := false) else s.pace,
       picture := if new' then Picture(true, ts, false, false, false) else s.picture,
       order := if new' then s.order.(corrupted := false) else s.order)
  }

  /** Whether the sequence number is out of place. */
  predicate Gap(o: SeqState, d: Descriptor) {
    if !d.b then !o.known || d.seqNo != o.expected || o.corrupted
    else !Keyframe(d) && o.known && d.seqNo != o.expected
  }

  function Follows(seqNo: nat): nat { (seqNo + 1) % SEQ_MOD }

  function NoteSequence(s: Scheduler, d: Descriptor): Scheduler {
    var gap := Gap(s.order, d);
    s.(needsKeyframe := s.needsKeyframe || gap,
       order := SeqState(s.order.known || Keyframe(d), Follows(d.seqNo), gap || (!d.b && s.order.corrupted)))
  }

  /** Screens carry every temporal layer; a camera follows a lowered target at once. */
  function ClampTids(s: Scheduler): Scheduler {
    s.(targetTid := if s.screen then TOP_TID else s.targetTid,
       currentTid := if s.screen then TOP_TID else if s.targetTid < s.currentTid then s.targetTid else s.currentTid)
  }

  /** The first reasons to refuse a packet. */
  function LayerRefusal(s: Scheduler, d: Descriptor): Reason {
    if s.picture.failed || (!s.screen && d.tid > s.targetTid) then OverTargetOrFailed
    else if !d.b && !s.picture.started then MissingFrameStart
    else if s.needsKeyframe && !s.key.active && !Keyframe(d) then KeyframeRequired
    else if s.needsKeyframe && s.key.active && (s.key.failed || s.key.ts != d.ts || d.p) then KeyframeMismatch
    else NoReason
  }

  predicate StartsKeyframe(s: Scheduler, d: Descriptor) { !s.key.active && Keyframe(d) }

  predicate OfKeyframe(s: Scheduler, d: Descriptor) {
    s.needsKeyframe || StartsKeyframe(s, d) || (s.key.active && s.key.ts == d.ts && !d.p)
  }

  predicate AboveCurrent(s: Scheduler, d: Descriptor) { !s.screen && d.tid > s.currentTid }

  /** A higher temporal layer starts at a frame start that allows switching up. */
  function TemporalRefusal(s: Scheduler, d: Descriptor): Reason {
    if !AboveCurrent(s, d) then NoReason
    else if s.up.active then
      (if s.up.ts != d.ts || s.up.tid != d.tid || s.up.failed then BadTemporalTransition else NoReason)
    else if !d.b || !d.u then NoTemporalSwitch
    else NoReason
  }

  predicate Paced(s: Scheduler, ts: nat, tid: nat) { s.pace.active && s.pace.ts == ts && s.pace.tid == tid }

  /** Enhancement frames may be dropped by the pacer; packets of a transition may not. */
  function ClassOf(s: Scheduler, d: Descriptor): PacerClass {
    var transition := OfKeyframe(s, d) || AboveCurrent(s, d) || (!d.b && s.picture.started);
    if transition && !(!d.b && Paced(s, d.ts, d.tid)) then VideoTransition
    else if d.tid > 0 then VideoEnh
    else VideoBase
  }

  function PacingRefusal(s: Scheduler, d: Descriptor): Reason {
    if ClassOf(s, d) != VideoEnh then NoReason
    else if d.b then (if s.pace.active then PacerOverlap else NoReason)
    else if Paced(s, d.ts, d.tid) then NoReason
    else PacerOrphan
  }

  function Refusal(s: Scheduler, d: Descriptor): Reason {
    if LayerRefusal(s, d) != NoReason then LayerRefusal(s, d)
    else if TemporalRefusal(s, d) != NoReason then TemporalRefusal(s, d)
    else PacingRefusal(s, d)
  }

  /** The decision; what an early refusal leaves unset stays unset. */
  function Judge(s: Scheduler, d: Descriptor): Decision {
    var layered := LayerRefusal(s, d) == NoReason;
    var timed := layered && TemporalRefusal(s, d) == NoReason;
    var enhanced := timed && ClassOf(s, d) == VideoEnh;
    var forward := Refusal(s, d) == NoReason;
    Decision(d, Refusal(s, d), forward, forward && d.e,
             layered && StartsKeyframe(s, d), layered && OfKeyframe(s, d), timed && AboveCurrent(s, d) && !s.up.active,
             enhanced && d.b, enhanced && d.e,
             if timed then ClassOf(s, d) else if d.tid > 0 then VideoEnh else VideoBase)
  }

  function GapDecision(d: Descriptor): Decision {
    Decision(d, SequenceGap, false, false, false, false, false, false, false, if d.tid > 0 then VideoEnh else VideoBase)
  }

  /** The scheduler after the bookkeeping of a packet, before it is judged. */
  function Noted(s: Scheduler, d: Descriptor): Scheduler {
    var noted := NoteSequence(BeginPicture(s, d.ts), d);
    if Gap(BeginPicture(s, d.ts).order, d) then noted else ClampTids(noted)
  }

  function Decide(s: Scheduler, d: Descriptor): Decision {
    if Gap(BeginPicture(s, d.ts).order, d) then GapDecision(d) else Judge(Noted(s, d), d)
  }

  // ---------------------------------------------------------------- commit and reject

  /** A forwarded packet takes effect. */
  function Commit(s: Scheduler, n: Decision): Scheduler {
    if !n.forward || !s.picture.valid || s.picture.ts != n.d.ts then s else Committed(s, n)
  }

  function Committed(s: Scheduler, n: Decision): Scheduler {
    var d := n.d;
    var key := if n.startKey then KeyState(true, false, d.ts) else s.key;
    var up := if n.startUp then UpState(true, false, d.tid, d.ts) else s.up;
    var ends := n.keyPacket && d.e;
    var complete := ends && key.active && !key.failed && key.ts == d.ts && !s.picture.failed;
    var arrives := up.active && up.ts == d.ts && up.tid == d.tid && d.e;
    var target := if complete && s.screen then TOP_TID else s.targetTid;
    s.(order := SeqState(true, Follows(d.seqNo), s.order.corrupted),
       picture := s.picture.(started := s.picture.started || d.b,
                             completed := s.picture.completed || (d.e && !s.picture.failed)),
       pace := if n.paceStart && !n.paceEnd then PaceState(true, d.ts, d.tid)
               else if n.paceEnd && Paced(s, d.ts, d.tid) then s.pace.(active := false)
               else s.pace,
       needsKeyframe := if ends then !complete else s.needsKeyframe,
       key := if ends then KeyState(false, !complete, key.ts) else key,
       up := if arrives then up.(active := false, failed := false) else up,
       targetTid := target,
       currentTid := if arrives && !up.failed && !s.picture.failed && d.tid <= target then d.tid
                     else if complete && s.screen then TOP_TID else s.currentTid)
  }

  /** Refusals that break the camera's decoding, as opposed to layers left out on purpose. */
  predicate Breaks(r: Reason)
  {
    r == NoReason || r == KeyframeRequired || r == KeyframeMismatch || r == MissingFrameStart || r == SequenceGap
  }

  /** A packet that does not go out, whether the scheduler or the egress path refused it. */
  function Reject(s: Scheduler, n: Decision): Scheduler {
    if !s.picture.valid || s.picture.ts != n.d.ts then s else Rejected(s, n)
  }

  function Rejected(s: Scheduler, n: Decision): Scheduler {
    var d := n.d;
    var ofKey := n.keyPacket || (s.key.active && s.key.ts == d.ts);
    s.(picture := s.picture.(failed := true),
       pace := if Paced(s, d.ts, d.tid) then s.pace.(active := false) else s.pace,
       key := if ofKey then KeyState(false, true, s.key.ts) else s.key,
       needsKeyframe := s.needsKeyframe || ofKey || s.screen || Breaks(n.reason) || s.picture.started,
       order := s.order.(corrupted := s.order.corrupted || n.reason == SequenceGap),
       up := s.up.(failed := s.up.failed || ((n.startUp || s.up.active) && s.up.ts == d.ts && s.up.tid == d.tid)))
  }

  // ---------------------------------------------------------------------- environment

  /** The egress path lost packets it had committed. */
  function ResetForKeyframe(s: Scheduler): Scheduler {
    s.(needsKeyframe := true, key := KeyState(false, false, s.key.ts), up := s.up.(active := false, failed := false),
       pace := s.pace.(active := false), order := SeqState(false, 0, false))
  }

  /** Rates of the three rungs, and the rung a rate reaches with a headroom of a fifth. */
  function RungRate(i: nat): nat { if i == 0 then 200_000 else if i == 1 then 600_000 else 1_200_000 }

  function Reached(bps: nat): int {
    if bps >= RungRate(2) * 6 / 5 then 2
    else if bps >= RungRate(1) * 6 / 5 then 1
    else if bps >= RungRate(0) * 6 / 5 then 0
    else -1
  }

  /** The temporal target for a rate; an established target is kept while its own rate is met. */
  function TargetFor(s: Scheduler, bps: nat): nat {
    var chosen := Reached(bps);
    var current := if s.targetTid >= 2 then 2 else s.targetTid;
    var keeps := s.lastChange != 0 && chosen < 2 && current > chosen && bps >= RungRate(current);
    var kept := if keeps then current else chosen;
    if s.screen then TOP_TID else if kept >= 0 then kept else 0
  }

  /** A camera's target rises no sooner than three seconds after its last change. */
  function SetBitrate(s: Scheduler, bps: nat, now: int): Scheduler {
    var target := TargetFor(s, bps);
    var held := !s.screen && target > s.targetTid && s.lastChange != 0 && now - s.lastChange < UP_DWELL_US;
    if target == s.targetTid || held then s else s.(lastChange := now, targetTid := target)
  }

  function NewScheduler(screen: bool): Scheduler {
    Scheduler(screen, TOP_TID, if screen then TOP_TID else 0, 0, true, Picture(false, 0, false, false, false),
              KeyState(false, false, 0), UpState(false, false, 0, 0), PaceState(false, 0, 0), SeqState(false, 0, false))
  }
}

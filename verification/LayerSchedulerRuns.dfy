/**
 What the layer scheduler guarantees about everything it forwards, whatever packets arrive,
 get lost or are refused, and whenever the egress path resets it.
 */
module LayerSchedulerRuns {
  import opened LayerScheduler

  /** An input packet and whether it was forwarded. */
  datatype Seen = Seen(d: Descriptor, forwarded: bool)

  /** The inputs of the current picture, that is, since the timestamp last changed; and whether a
      picture was broken since the last keyframe start was forwarded. */
  datatype History = History(picture: seq<Seen>, broken: bool)

  /** A picture of which something was forwarded, but not its end or not all of it. */
  predicate Broken(picture: seq<Seen>) { SomeForwarded(picture) && (!SomeEnd(picture) || SomeRefused(picture)) }

  predicate SamePicture(h: History, d: Descriptor) { h.picture != [] && h.picture[0].d.ts == d.ts }

  function Record(h: History, d: Descriptor, forwarded: bool): History {
    var same := SamePicture(h, d);
    History(if same then h.picture + [Seen(d, forwarded)] else [Seen(d, forwarded)],
            (h.broken || (!same && Broken(h.picture))) && !(forwarded && Keyframe(d)))
  }

  /** A packet is prepared; a refused one is rejected; an approved one is committed or, if the
      egress path refuses it, rejected.  The egress path may reset the scheduler before and after. */
  datatype Event =
    | Packet(d: Descriptor, admitted: bool, resetBetween: bool, resetAfter: bool)
    | Bitrate(bps: nat, now: int)
    | Reset

  datatype State = State(s: Scheduler, h: History)

  function MaybeReset(s: Scheduler, reset: bool): Scheduler { if reset then ResetForKeyframe(s) else s }

  /** Whether a packet goes out. */
  predicate Forwards(s: Scheduler, d: Descriptor, admitted: bool) { Decide(s, d).forward && admitted }

  function Handle(s: Scheduler, d: Descriptor, admitted: bool, resetBetween: bool): Scheduler {
    var n := Decide(s, d);
    var prepared := MaybeReset(Noted(s, d), n.forward && resetBetween);
    if n.forward && admitted then Commit(prepared, n) else Reject(prepared, n)
  }

  function Step(x: State, ev: Event): State {
    match ev
    case Packet(d, admitted, between, after) =>
      State(MaybeReset(Handle(x.s, d, admitted, between), after), Record(x.h, d, Forwards(x.s, d, admitted)))
    case Bitrate(bps, now) => State(SetBitrate(x.s, bps, now), x.h)
    case Reset => State(ResetForKeyframe(x.s), x.h)
  }

  function Run(x: State, events: seq<Event>): State
    decreases |events|
  {
    if events == [] then x else Run(Step(x, events[0]), events[1..])
  }

  function Start(screen: bool): State { State(NewScheduler(screen), History([], false)) }

  // ------------------------------------------------------------------------- invariant

  /** The flags of the current picture say what its packets were. */
  ghost predicate PictureInv(p: Picture, picture: seq<Seen>) {
    && (forall i | 0 <= i < |picture| :: picture[i].d.ts == p.ts)
    && (p.started <==> SomeStart(picture)) && (p.completed <==> SomeEnd(picture))
    && (p.failed <==> SomeRefused(picture))
  }

  predicate SomeStart(picture: seq<Seen>) { exists i :: 0 <= i < |picture| && picture[i].forwarded && picture[i].d.b }
  predicate SomeEnd(picture: seq<Seen>) { exists i :: 0 <= i < |picture| && picture[i].forwarded && picture[i].d.e }
  predicate SomeRefused(picture: seq<Seen>) { exists i :: 0 <= i < |picture| && !picture[i].forwarded }
  predicate SomeForwarded(picture: seq<Seen>) { exists i :: 0 <= i < |picture| && picture[i].forwarded }

  /** What is forwarded of a picture is its beginning, and it starts with a frame start. */
  ghost predicate ForwardsPrefix(picture: seq<Seen>) {
    forall i | 0 <= i < |picture| && picture[i].forwarded ::
      picture[0].d.b && forall j | 0 <= j < i :: picture[j].forwarded
  }

  /** Some frame start of the picture allowed switching up to `tid`. */
  ghost predicate SwitchPoint(picture: seq<Seen>, tid: nat) {
    exists i ::
      0 <= i < |picture| && picture[i].forwarded && picture[i].d.b && picture[i].d.u && picture[i].d.tid == tid
  }

  /** Packets other than a keyframe start may pass. */
  predicate Live(s: Scheduler) { !s.needsKeyframe || s.key.active }

  ghost predicate LastForwarded(o: SeqState, picture: seq<Seen>) {
    && picture != []
    && var last := picture[|picture| - 1]; last.forwarded && o.known && o.expected == Follows(last.d.seqNo)
  }

  /** A known sequence number is the last input's. */
  ghost predicate Tracks(o: SeqState, picture: seq<Seen>) {
    o.known ==> picture != [] && o.expected == Follows(picture[|picture| - 1].d.seqNo)
  }

  ghost predicate SchedulerInv(x: State) {
    && (x.s.picture.valid <==> x.h.picture != []) && PictureInv(x.s.picture, x.h.picture) && ForwardsPrefix(x.h.picture)
    && Tracks(x.s.order, x.h.picture)
    && (x.s.screen && Live(x.s) ==> LastForwarded(x.s.order, x.h.picture))
    && (x.h.broken ==> !Live(x.s))
    && (x.s.key.active ==> x.s.picture.valid && x.s.key.ts == x.s.picture.ts)
    && (x.s.up.active ==> x.s.picture.valid && x.s.up.ts == x.s.picture.ts && SwitchPoint(x.h.picture, x.s.up.tid))
  }

  // ----------------------------------------------------------------- one packet at a time

  /** What being let through says about the scheduler before. */
  lemma ForwardMeans(s: Scheduler, d: Descriptor)
    requires Decide(s, d).forward
    ensures var begun := BeginPicture(s, d.ts);
      !Gap(begun.order, d) && !begun.picture.failed && (d.b || begun.picture.started) && (Live(begun) || Keyframe(d))
  {
  }

  lemma PictureAppend(p: Picture, picture: seq<Seen>, x: Seen)
    requires PictureInv(p, picture) && x.d.ts == p.ts && (x.forwarded ==> !p.failed)
    ensures PictureInv(Picture(true, p.ts, p.started || (x.forwarded && x.d.b),
                               p.completed || (x.forwarded && x.d.e), p.failed || !x.forwarded), picture + [x])
  {
    var more := picture + [x];
    assert more[|picture|] == x;
    assert forall i | 0 <= i < |picture| :: more[i] == picture[i];
  }

  lemma PrefixAppend(picture: seq<Seen>, x: Seen)
    requires ForwardsPrefix(picture)
    requires x.forwarded ==> !SomeRefused(picture) && (x.d.b || SomeStart(picture))
    ensures ForwardsPrefix(picture + [x])
  {
  }

  lemma SwitchAppend(picture: seq<Seen>, x: Seen, tid: nat)
    requires SwitchPoint(picture, tid) || (x.forwarded && x.d.b && x.d.u && x.d.tid == tid)
    ensures SwitchPoint(picture + [x], tid)
  {
    var more := picture + [x];
    assert more[|picture|] == x;
    if SwitchPoint(picture, tid) {
      var i :| && 0 <= i < |picture| && picture[i].forwarded
               && picture[i].d.b && picture[i].d.u && picture[i].d.tid == tid;
      assert more[i] == picture[i];
    }
  }

  /** The inputs before `d` in its picture. */
  function Before(h: History, d: Descriptor): seq<Seen> { if SamePicture(h, d) then h.picture else [] }

  /** The invariant in the middle of a packet: its picture has begun, and it has not been
      recorded yet. */
  ghost predicate Midway(s: Scheduler, picture: seq<Seen>, d: Descriptor) {
    && s.picture.valid && s.picture.ts == d.ts && PictureInv(s.picture, picture) && ForwardsPrefix(picture)
    && (s.key.active ==> s.key.ts == d.ts)
    && (s.up.active ==> s.up.ts == d.ts && SwitchPoint(picture, s.up.tid))
  }

  lemma BeginIsMidway(x: State, d: Descriptor)
    requires SchedulerInv(x)
    ensures Midway(BeginPicture(x.s, d.ts), Before(x.h, d), d)
    ensures x.h.broken || (!SamePicture(x.h, d) && Broken(x.h.picture)) ==> !Live(BeginPicture(x.s, d.ts))
    ensures Live(BeginPicture(x.s, d.ts)) ==> Live(x.s)
  {
    assert SamePicture(x.h, d) <==> !NewPicture(x.s, d.ts);
    if !SamePicture(x.h, d) && Broken(x.h.picture) {
      var i :| 0 <= i < |x.h.picture| && x.h.picture[i].forwarded;
      assert x.h.picture[0].forwarded && x.h.picture[0].d.b;
      assert SomeStart(x.h.picture);
    }
  }

  /** Bookkeeping and resets leave the picture alone and let no one in who was not let in. */
  lemma NotedIsMidway(s: Scheduler, picture: seq<Seen>, d: Descriptor, reset: bool)
    requires Midway(BeginPicture(s, d.ts), picture, d)
    ensures var begun := BeginPicture(s, d.ts); var prepared := MaybeReset(Noted(s, d), reset);
      && Midway(prepared, picture, d) && prepared.screen == s.screen && prepared.picture == begun.picture
      && (Live(prepared) ==> Live(begun))
      && (prepared.order.known ==> prepared.order.expected == Follows(d.seqNo))
  {
    hide PictureInv, ForwardsPrefix, SwitchPoint;
  }

  /** After a forwarded packet. */
  lemma CommitKeeps(s: Scheduler, n: Decision, picture: seq<Seen>)
    requires Midway(s, picture, n.d) && n.forward && !s.picture.failed && (n.d.b || s.picture.started)
    requires n.startUp ==> n.d.b && n.d.u
    ensures var s' := Commit(s, n); var more := picture + [Seen(n.d, true)];
      && Midway(s', more, n.d) && LastForwarded(s'.order, more) && Tracks(s'.order, more)
  {
    hide ForwardsPrefix, SwitchPoint;
    var x := Seen(n.d, true);
    PictureAppend(s.picture, picture, x);
    PrefixAppend(picture, x);
    var up := if n.startUp then UpState(true, false, n.d.tid, n.d.ts) else s.up;
    if up.active { SwitchAppend(picture, x, up.tid); }
  }

  /** After a packet that did not go out. */
  lemma RejectKeeps(s: Scheduler, n: Decision, picture: seq<Seen>)
    requires Midway(s, picture, n.d)
    ensures var s' := Reject(s, n); var more := picture + [Seen(n.d, false)];
      && Midway(s', more, n.d) && (s.screen ==> !Live(s')) && (Live(s') ==> Live(s))
      && s'.order == s.order.(corrupted := s'.order.corrupted)
  {
    hide ForwardsPrefix, SwitchPoint;
    var x := Seen(n.d, false);
    PictureAppend(s.picture, picture, x);
    PrefixAppend(picture, x);
    if s.up.active { SwitchAppend(picture, x, s.up.tid); }
  }

  lemma StartUpMeans(s: Scheduler, d: Descriptor)
    ensures Decide(s, d).startUp ==> d.b && d.u
    ensures Decide(s, d).d == d
  {
  }

  lemma HandleKeeps(x: State, d: Descriptor, admitted: bool, between: bool)
    requires SchedulerInv(x)
    ensures SchedulerInv(State(Handle(x.s, d, admitted, between), Record(x.h, d, Forwards(x.s, d, admitted))))
    ensures Forwards(x.s, d, admitted) && (x.h.broken || (!SamePicture(x.h, d) && Broken(x.h.picture))) ==> Keyframe(d)
  {
    hide PictureInv, ForwardsPrefix, SwitchPoint, BeginPicture, Noted, Decide, Commit, Reject, MaybeReset, Broken,
        LastForwarded;
    var picture, n := Before(x.h, d), Decide(x.s, d);
    var begun, prepared := BeginPicture(x.s, d.ts), MaybeReset(Noted(x.s, d), n.forward && between);
    BeginIsMidway(x, d);
    NotedIsMidway(x.s, picture, d, n.forward && between);
    StartUpMeans(x.s, d);
    HandleScreen(x.s, d, admitted, between);
    if n.forward { ForwardMeans(x.s, d); }
    if n.forward && admitted { CommitKeeps(prepared, n, picture); } else { RejectKeeps(prepared, n, picture); }
    assert Record(x.h, d, n.forward && admitted).picture == picture + [Seen(d, n.forward && admitted)];
  }

  lemma ResetKeeps(x: State)
    requires SchedulerInv(x)
    ensures SchedulerInv(State(ResetForKeyframe(x.s), x.h))
  {
    hide PictureInv, ForwardsPrefix, SwitchPoint;
  }

  lemma StepKeeps(x: State, ev: Event)
    requires SchedulerInv(x)
    ensures SchedulerInv(Step(x, ev)) && Step(x, ev).s.screen == x.s.screen
  {
    hide SchedulerInv, Handle, Record;
    match ev {
      case Packet(d, admitted, between, after) =>
        HandleKeeps(x, d, admitted, between);
        ResetKeeps(State(Handle(x.s, d, admitted, between), Record(x.h, d, Forwards(x.s, d, admitted))));
        HandleScreen(x.s, d, admitted, between);
      case Bitrate(bps, now) => BitrateKeeps(x, bps, now);
      case Reset => ResetKeeps(x);
    }
  }

  lemma HandleScreen(s: Scheduler, d: Descriptor, admitted: bool, between: bool)
    ensures Handle(s, d, admitted, between).screen == s.screen
  {
  }

  lemma BitrateKeeps(x: State, bps: nat, now: int)
    requires SchedulerInv(x)
    ensures SchedulerInv(State(SetBitrate(x.s, bps, now), x.h))
  {
    hide PictureInv, ForwardsPrefix, SwitchPoint, TargetFor;
  }

  lemma {:induction false} RunKeeps(x: State, events: seq<Event>)
    requires SchedulerInv(x)
    ensures SchedulerInv(Run(x, events)) && Run(x, events).s.screen == x.s.screen
    decreases |events|
  {
    hide SchedulerInv, Step;
    if events != [] {
      StepKeeps(x, events[0]);
      RunKeeps(Step(x, events[0]), events[1..]);
    }
  }

  lemma StartIsOk(screen: bool)
    ensures SchedulerInv(Start(screen))
  {
  }

  // -------------------------------------------------------------------------- theorems

  /** Screens are forwarded as unbroken runs: after any run, a forwarded packet that is not a
      keyframe start directly follows a forwarded input with the preceding sequence number. */
  lemma ScreenRunsAreUnbroken(events: seq<Event>, d: Descriptor, admitted: bool)
    requires Forwards(Run(Start(true), events).s, d, admitted) && !Keyframe(d)
    ensures var picture := Run(Start(true), events).h.picture;
      picture != [] && picture[|picture| - 1].forwarded && d.seqNo == Follows(picture[|picture| - 1].d.seqNo)
  {
    hide Run, Start, Decide, PictureInv, ForwardsPrefix, SwitchPoint;
    var x := Run(Start(true), events);
    StartIsOk(true);
    RunKeeps(Start(true), events);
    StartScreen(true);
    ForwardMeans(x.s, d);
    BeginIsMidway(x, d);
  }

  lemma StartScreen(screen: bool)
    ensures Start(screen).s.screen == screen
  {
  }

  /** Frames are atomic: after any run, when a packet is forwarded every earlier input of its
      picture was forwarded too, and the first one is a frame start. */
  lemma FramesAreAtomic(screen: bool, events: seq<Event>, d: Descriptor, admitted: bool)
    requires Forwards(Run(Start(screen), events).s, d, admitted)
    ensures var picture := Record(Run(Start(screen), events).h, d, true).picture;
      picture[0].d.b && forall i | 0 <= i < |picture| :: picture[i].forwarded
  {
    hide Run, Start, Handle, Decide, SwitchPoint, PictureInv;
    var x := Run(Start(screen), events);
    StartIsOk(screen);
    RunKeeps(Start(screen), events);
    HandleKeeps(x, d, admitted, false);
    var picture := Record(x.h, d, true).picture;
    assert ForwardsPrefix(picture) && picture[|picture| - 1].forwarded;
  }

  /** After any run, a forwarded packet that is not a frame start directly follows an input of
      its own picture, which was forwarded and has the preceding sequence number. */
  lemma FramesHaveNoGaps(screen: bool, events: seq<Event>, d: Descriptor, admitted: bool)
    requires Forwards(Run(Start(screen), events).s, d, admitted) && !d.b
    ensures var h := Run(Start(screen), events).h;
      SamePicture(h, d) && var last := h.picture[|h.picture| - 1]; last.forwarded && d.seqNo == Follows(last.d.seqNo)
  {
    hide Run, Start, Handle, Decide, SwitchPoint, ForwardsPrefix;
    var x := Run(Start(screen), events);
    StartIsOk(screen);
    RunKeeps(Start(screen), events);
    ForwardMeans(x.s, d);
    BeginIsMidway(x, d);
    assert !SomeRefused(x.h.picture);
  }

  /** A picture that was begun but not finished, or of which a packet was refused, blocks
      everything after it until a keyframe start is forwarded. */
  lemma BrokenPicturesNeedAKeyframe(screen: bool, events: seq<Event>, d: Descriptor, admitted: bool)
    requires var x := Run(Start(screen), events);
      Forwards(x.s, d, admitted) && (x.h.broken || (!SamePicture(x.h, d) && Broken(x.h.picture)))
    ensures Keyframe(d)
  {
    hide Run, Start, SchedulerInv, Forwards, Broken;
    var x := Run(Start(screen), events);
    StartIsOk(screen);
    RunKeeps(Start(screen), events);
    HandleKeeps(x, d, admitted, false);
  }

  /** A camera's temporal layer rises only when the end of a frame is forwarded whose start
      allowed switching up. */
  lemma LayersRiseAtSwitchPoints(events: seq<Event>, ev: Event)
    requires Step(Run(Start(false), events), ev).s.currentTid > Run(Start(false), events).s.currentTid
    ensures var x := Run(Start(false), events); var x' := Step(x, ev);
      && ev.Packet? && ev.d.e && Forwards(x.s, ev.d, ev.admitted) && ev.d.tid == x'.s.currentTid
      && SwitchPoint(x'.h.picture, x'.s.currentTid)
  {
    hide Run, Start, PictureInv, ForwardsPrefix, LastForwarded;
    var x := Run(Start(false), events);
    StartIsOk(false);
    RunKeeps(Start(false), events);
    StartScreen(false);
    RiseMeans(x, ev);
  }

  lemma RiseMeans(x: State, ev: Event)
    requires SchedulerInv(x) && !x.s.screen && Step(x, ev).s.currentTid > x.s.currentTid
    ensures ev.Packet? && ev.d.e && Forwards(x.s, ev.d, ev.admitted) && ev.d.tid == Step(x, ev).s.currentTid
    ensures SwitchPoint(Step(x, ev).h.picture, Step(x, ev).s.currentTid)
  {
    hide PictureInv, ForwardsPrefix, LastForwarded, SwitchPoint, Decide;
    assert ev.Packet?;
    var d, n := ev.d, Decide(x.s, ev.d);
    BeginIsMidway(x, d);
    NotedIsMidway(x.s, Before(x.h, d), d, n.forward && ev.resetBetween);
    StartUpMeans(x.s, d);
    SwitchAppendIf(Before(x.h, d), Seen(d, true), d.tid);
    assert Step(x, ev).h.picture == Before(x.h, d) + [Seen(d, true)];
  }

  lemma SwitchAppendIf(picture: seq<Seen>, x: Seen, tid: nat)
    ensures SwitchPoint(picture, tid) || (x.forwarded && x.d.b && x.d.u && x.d.tid == tid) ==>
      SwitchPoint(picture + [x], tid)
  {
    if SwitchPoint(picture, tid) || (x.forwarded && x.d.b && x.d.u && x.d.tid == tid) { SwitchAppend(picture, x, tid); }
  }
}

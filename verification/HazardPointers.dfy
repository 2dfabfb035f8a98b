/**
 Hazard-pointer protection of published snapshots (src/peer/session.c): readers announce
 the snapshot they are about to count a reference on, and a snapshot that was swapped out
 is released only after no announcement of it was seen.

 Every atomic operation is one step; steps of any threads interleave under sequential
 consistency.  Addresses may be used again once they were freed.
 */
module HazardPointers {
  import opened Wrappers

  type Tid = int
  type Addr = int

  const NULL: Addr := 0
  const HAZARD_SLOTS: int := 256

  /** A published pointer: the receivers or the fanout bundle of one session. */
  datatype Source = Source(owner: int, fanout: bool)

  datatype Pc =
    | Idle
    | Loaded(src: Source, snap: Addr)      // hazard path: the source was loaded
    | Hazarded(src: Source, snap: Addr)    // ... and announced
    | Mismatch(src: Source, snap: Addr)    // ... but the source changed: clear
    | Retrying(src: Source)                // ... cleared: load again
    | Validated(snap: Addr)                // ... and was found unchanged
    | Counted(snap: Addr)                  // ... and a reference was counted
    | LockTaken(src: Source)               // lock path
    | LockLoaded(src: Source, snap: Addr)
    | LockDone(src: Source)
    | SwapLocked(src: Source, incoming: Addr) // publishing a new snapshot
    | SwapLoaded(src: Source, incoming: Addr, was: Addr)
    | SwapDone(src: Source)
    | Scanning(snap: Addr, at: int)        // reclaiming: slots below `at` were looked at
    | Freeing(snap: Addr)                  // the count dropped to zero
    | Exiting                              // hazard cleared, slot about to be given back

  datatype Thread = Thread(slot: Option<int>, pc: Pc)

  /** Who answers for the reference that a snapshot was created with. */
  datatype Stage =
    | Fresh(tid: Tid)
    | Published(src: Source)
    | Retired
    | Reclaiming(tid: Tid)
    | Dropped
    | Dying(tid: Tid)

  /** `held` are the references acquired and not yet released, by whoever holds them. */
  datatype State = State(
    sources: map<Source, Addr>,
    locks: map<int, Tid>,
    refs: map<Addr, int>,
    stage: map<Addr, Stage>,
    held: multiset<Addr>,
    hazards: seq<Addr>,
    claimed: seq<bool>,
    threads: map<Tid, Thread>)

  /** Steps of the hazard path; they touch only the thread's own hazard slot. */
  datatype ReadStep =
    | ClaimSlot(i: int) | Load(src: Source) | Announce | Validate | ClearMismatch | Reload | Count | ClearHazard
    | ExitClear | ExitUnclaim

  /** Steps under a session's lock. */
  datatype LockStep =
    | LockForRead(src: Source) | LockedLoad | LockedCount | UnlockRead
    | LockForSwap(src: Source, incoming: Addr) | SwapLoad | SwapStore | UnlockSwap

  /** Steps that create, drop and free snapshots. */
  datatype MemStep =
    | Allocate(a: Addr) | StartReclaim(a: Addr) | Scan | DropRetired | Release(a: Addr) | Discard(a: Addr) | Free

  datatype Action = Read(r: ReadStep) | Lock(l: LockStep) | Mem(m: MemStep)

  ghost predicate Init(s: State) {
    && (forall src | src in s.sources :: s.sources[src] == NULL)
    && s.locks == map[] && s.refs == map[] && s.stage == map[] && s.held == multiset{}
    && |s.hazards| == HAZARD_SLOTS == |s.claimed|
    && (forall i | 0 <= i < HAZARD_SLOTS :: s.hazards[i] == NULL && !s.claimed[i])
    && (forall t | t in s.threads :: s.threads[t] == Thread(None, Idle))
  }

  ghost predicate Shaped(s: State) {
    |s.hazards| == HAZARD_SLOTS == |s.claimed| && forall t | t in s.threads :: SlotShaped(s.threads[t])
  }

  ghost predicate SlotShaped(th: Thread) { th.slot.Some? ==> 0 <= th.slot.value < HAZARD_SLOTS }

  ghost predicate CanRead(s: State, t: Tid, a: ReadStep)
    requires Shaped(s)
  {
    && t in s.threads && SlotShaped(s.threads[t])
    && var th := s.threads[t];
    match a
    case ClaimSlot(i) => th.pc.Idle? && th.slot.None? && 0 <= i < HAZARD_SLOTS && !s.claimed[i]
    case Load(src) => th.pc.Idle? && th.slot.Some? && src in s.sources
    case Announce => th.pc.Loaded? && th.slot.Some?
    case Validate => th.pc.Hazarded? && th.pc.src in s.sources
    case ClearMismatch => th.pc.Mismatch? && th.slot.Some?
    case Reload => th.pc.Retrying? && th.pc.src in s.sources
    case Count => th.pc.Validated?
    case ClearHazard => th.pc.Counted? && th.slot.Some?
    case ExitClear => th.pc.Idle? && th.slot.Some?
    case ExitUnclaim => th.pc.Exiting? && th.slot.Some?
  }

  ghost predicate CanLock(s: State, t: Tid, a: LockStep) {
    && t in s.threads
    && var th := s.threads[t];
    match a
    case LockForRead(src) => th.pc.Idle? && src in s.sources && src.owner !in s.locks
    case LockedLoad => th.pc.LockTaken? && th.pc.src in s.sources
    case LockedCount => th.pc.LockLoaded?
    case UnlockRead => th.pc.LockDone?
    case LockForSwap(src, incoming) =>
      && th.pc.Idle? && src in s.sources && src.owner !in s.locks
      && (incoming == NULL || (incoming in s.stage && s.stage[incoming] == Fresh(t)))
    case SwapLoad => th.pc.SwapLocked? && th.pc.src in s.sources
    case SwapStore => th.pc.SwapLoaded?
    case UnlockSwap => th.pc.SwapDone?
  }

  ghost predicate CanMem(s: State, t: Tid, a: MemStep)
    requires Shaped(s)
  {
    && t in s.threads
    && var th := s.threads[t];
    match a
    case Allocate(x) => th.pc.Idle? && x != NULL && x !in s.refs
    case StartReclaim(x) => th.pc.Idle? && x in s.stage && s.stage[x].Retired?
    case Scan => th.pc.Scanning? && 0 <= th.pc.at < HAZARD_SLOTS
    case DropRetired => th.pc.Scanning? && th.pc.at == HAZARD_SLOTS
    case Release(x) => th.pc.Idle? && x in s.held
    case Discard(x) => th.pc.Idle? && x in s.stage && s.stage[x] == Fresh(t)
    case Free => th.pc.Freeing?
  }

  ghost function At(s: State, t: Tid, pc: Pc): State
    requires t in s.threads
  {
    s.(threads := s.threads[t := s.threads[t].(pc := pc)])
  }

  ghost function SetHazard(s: State, t: Tid, a: Addr): State
    requires Shaped(s) && t in s.threads && s.threads[t].slot.Some? && SlotShaped(s.threads[t])
  {
    s.(hazards := s.hazards[s.threads[t].slot.value := a])
  }

  /** Counting a reference; on a freed snapshot this would be a use after free, which
      `NoUseAfterFree` rules out. */
  ghost function AddRef(s: State, a: Addr): State {
    if a == NULL then s
    else s.(refs := s.refs[a := (if a in s.refs then s.refs[a] else 0) + 1], held := s.held + multiset{a})
  }

  /** Dropping a reference: at zero the thread goes on to free the snapshot. */
  ghost function SubRef(s: State, t: Tid, a: Addr, stage: Stage): State
    requires t in s.threads
  {
    var n := (if a in s.refs then s.refs[a] else 0) - 1;
    At(s, t, if n == 0 then Freeing(a) else Idle).(
      refs := s.refs[a := n], stage := s.stage[a := if n == 0 then Dying(t) else stage])
  }

  ghost function DoRead(s: State, t: Tid, a: ReadStep): State
    requires Shaped(s) && CanRead(s, t, a)
  {
    var th := s.threads[t];
    match a
    case ClaimSlot(i) => s.(claimed := s.claimed[i := true], threads := s.threads[t := th.(slot := Some(i))])
    case Load(src) => At(s, t, Loaded(src, s.sources[src]))
    case Announce => At(SetHazard(s, t, th.pc.snap), t, Hazarded(th.pc.src, th.pc.snap))
    case Validate =>
      At(s, t, if s.sources[th.pc.src] == th.pc.snap then Validated(th.pc.snap) else Mismatch(th.pc.src, th.pc.snap))
    case ClearMismatch => At(SetHazard(s, t, NULL), t, Retrying(th.pc.src))
    case Reload => At(s, t, Loaded(th.pc.src, s.sources[th.pc.src]))
    case Count => At(AddRef(s, th.pc.snap), t, Counted(th.pc.snap))
    case ClearHazard => At(SetHazard(s, t, NULL), t, Idle)
    case ExitClear => At(SetHazard(s, t, NULL), t, Exiting)
    case ExitUnclaim => s.(claimed := s.claimed[th.slot.value := false], threads := s.threads[t := Thread(None, Idle)])
  }

  ghost function DoLock(s: State, t: Tid, a: LockStep): State
    requires CanLock(s, t, a)
  {
    var th := s.threads[t];
    match a
    case LockForRead(src) => At(s, t, LockTaken(src)).(locks := s.locks[src.owner := t])
    case LockedLoad => At(s, t, LockLoaded(th.pc.src, s.sources[th.pc.src]))
    case LockedCount => At(AddRef(s, th.pc.snap), t, LockDone(th.pc.src))
    case UnlockRead => At(s, t, Idle).(locks := s.locks - {th.pc.src.owner})
    case LockForSwap(src, incoming) => At(s, t, SwapLocked(src, incoming)).(locks := s.locks[src.owner := t])
    case SwapLoad => At(s, t, SwapLoaded(th.pc.src, th.pc.incoming, s.sources[th.pc.src]))
    case SwapStore =>
      var stage1 := if th.pc.was == NULL then s.stage else s.stage[th.pc.was := Retired];
      At(s, t, SwapDone(th.pc.src)).(
        sources := s.sources[th.pc.src := th.pc.incoming],
        stage := if th.pc.incoming == NULL then stage1 else stage1[th.pc.incoming := Published(th.pc.src)])
    case UnlockSwap => At(s, t, Idle).(locks := s.locks - {th.pc.src.owner})
  }

  ghost function DoMem(s: State, t: Tid, a: MemStep): State
    requires Shaped(s) && CanMem(s, t, a)
  {
    var th := s.threads[t];
    match a
    case Allocate(x) => s.(refs := s.refs[x := 1], stage := s.stage[x := Fresh(t)])
    case StartReclaim(x) => At(s, t, Scanning(x, 0)).(stage := s.stage[x := Reclaiming(t)])
    case Scan =>
      var at := if s.hazards[th.pc.at] == th.pc.snap then 0 else th.pc.at + 1;
      At(s, t, Scanning(th.pc.snap, at))
    case DropRetired => SubRef(s, t, th.pc.snap, Dropped)
    case Release(x) => SubRef(s, t, x, if x in s.stage then s.stage[x] else Dropped).(held := s.held - multiset{x})
    case Discard(x) => SubRef(s, t, x, Dropped)
    case Free => At(s, t, Idle).(refs := s.refs - {th.pc.snap}, stage := s.stage - {th.pc.snap})
  }

  ghost predicate Enabled(s: State, t: Tid, a: Action)
    requires Shaped(s)
  {
    match a case Read(r) => CanRead(s, t, r) case Lock(l) => CanLock(s, t, l) case Mem(m) => CanMem(s, t, m)
  }

  ghost function Act(s: State, t: Tid, a: Action): State
    requires Shaped(s) && Enabled(s, t, a)
  {
    match a case Read(r) => DoRead(s, t, r) case Lock(l) => DoLock(s, t, l) case Mem(m) => DoMem(s, t, m)
  }

  // ---------------------------------------------------------------- invariant

  /** Does the reference a snapshot was created with still count? */
  ghost predicate Based(st: Stage) { st.Fresh? || st.Published? || st.Retired? || st.Reclaiming? }

  ghost predicate CountOk(s: State, a: Addr)
    requires a in s.refs && a in s.stage
  {
    && a != NULL
    && s.refs[a] == s.held[a] + (if Based(s.stage[a]) then 1 else 0)
    && (s.stage[a].Dying? <==> s.refs[a] == 0)
    && (s.stage[a].Published? ==> s.stage[a].src in s.sources && s.sources[s.stage[a].src] == a)
    && (s.stage[a].Reclaiming? ==>
          && s.stage[a].tid in s.threads && s.threads[s.stage[a].tid].pc.Scanning?
          && s.threads[s.stage[a].tid].pc.snap == a)
  }

  ghost predicate SourceOk(s: State, src: Source)
    requires src in s.sources
  {
    s.sources[src] != NULL ==> s.sources[src] in s.stage && s.stage[s.sources[src]] == Published(src)
  }

  /** A validated reader keeps its snapshot from being dropped: it is published, waiting, or
      being scanned for by someone who has yet to look at this reader's slot. */
  ghost predicate Protected(s: State, a: Addr, slot: int) {
    && a in s.stage
    && (|| s.stage[a].Published?
        || s.stage[a].Retired?
        || (&& s.stage[a].Reclaiming? && s.stage[a].tid in s.threads
            && s.threads[s.stage[a].tid].pc.Scanning? && s.threads[s.stage[a].tid].pc.at <= slot))
  }

  ghost predicate Announced(s: State, th: Thread, a: Addr) {
    th.slot.Some? && 0 <= th.slot.value < |s.hazards| && s.hazards[th.slot.value] == a
  }

  ghost predicate Locked(s: State, t: Tid, src: Source) {
    src in s.sources && src.owner in s.locks && s.locks[src.owner] == t
  }

  ghost predicate ThreadOk(s: State, t: Tid, th: Thread) {
    && SlotShaped(th)
    && match th.pc
       case Idle => true
       case Loaded(src, a) => th.slot.Some? && src in s.sources
       case Hazarded(src, a) => Announced(s, th, a) && src in s.sources
       case Mismatch(src, a) => Announced(s, th, a) && src in s.sources
       case Retrying(src) => th.slot.Some? && src in s.sources
       case Validated(a) => Announced(s, th, a) && (a != NULL ==> Protected(s, a, th.slot.value))
       case Counted(a) => Announced(s, th, a)
       case LockTaken(src) => Locked(s, t, src)
       case LockLoaded(src, a) => Locked(s, t, src) && s.sources[src] == a
       case LockDone(src) => Locked(s, t, src)
       case SwapLocked(src, incoming) =>
         Locked(s, t, src) && (incoming != NULL ==> incoming in s.stage && s.stage[incoming] == Fresh(t))
       case SwapLoaded(src, incoming, was) =>
         && Locked(s, t, src) && s.sources[src] == was
         && (incoming != NULL ==> incoming in s.stage && s.stage[incoming] == Fresh(t))
       case SwapDone(src) => Locked(s, t, src)
       case Scanning(a, at) => 0 <= at <= HAZARD_SLOTS && a in s.stage && s.stage[a] == Reclaiming(t)
       case Freeing(a) => a in s.stage && s.stage[a] == Dying(t)
       case Exiting => th.slot.Some?
  }

  /** Distinct threads use distinct, claimed slots. */
  ghost predicate SlotsOk(s: State) {
    && (forall t | t in s.threads && s.threads[t].slot.Some? ::
          0 <= s.threads[t].slot.value < |s.claimed| && s.claimed[s.threads[t].slot.value])
    && (forall t, u | t in s.threads && u in s.threads && t != u && s.threads[t].slot.Some? ::
          s.threads[t].slot != s.threads[u].slot)
  }

  ghost predicate Inv(s: State) {
    && Shaped(s)
    && s.refs.Keys == s.stage.Keys
    && (forall a | a in s.held :: a in s.refs)
    && (forall a {:trigger CountOk(s, a)} | a in s.refs :: CountOk(s, a))
    && (forall src {:trigger SourceOk(s, src)} | src in s.sources :: SourceOk(s, src))
    && (forall t {:trigger ThreadOk(s, t, s.threads[t])} | t in s.threads :: ThreadOk(s, t, s.threads[t]))
    && SlotsOk(s)
  }

  lemma InitInv(s: State)
    requires Init(s)
    ensures Inv(s)
  {
  }

  /** What another thread relies on: its own hazard slot, and reclaimers' scan positions. */
  ghost predicate SameFor(s: State, s': State, t: Tid, u: Tid)
    requires u in s.threads
  {
    && |s'.hazards| == |s.hazards|
    && (s.threads[u].slot.Some? && 0 <= s.threads[u].slot.value < |s.hazards| ==>
          s'.hazards[s.threads[u].slot.value] == s.hazards[s.threads[u].slot.value])
    && (forall v | v in s.threads && v != t :: v in s'.threads && s'.threads[v] == s.threads[v])
    && (t in s.threads && !s.threads[t].pc.Scanning?)
  }

  lemma ThreadFrame(s: State, s': State, t: Tid, u: Tid)
    requires t in s.threads && u in s.threads && u != t && SameFor(s, s', t, u)
    requires s'.sources == s.sources && s'.stage == s.stage && s'.locks == s.locks
    requires ThreadOk(s, u, s.threads[u])
    ensures ThreadOk(s', u, s.threads[u])
  {
  }

  lemma SlotsFrame(s: State, s': State)
    requires Shaped(s) && SlotsOk(s) && |s'.hazards| == |s.hazards| && s'.claimed == s.claimed
    requires s'.threads.Keys == s.threads.Keys
    requires forall u | u in s.threads :: s'.threads[u].slot == s.threads[u].slot
    ensures Shaped(s') && SlotsOk(s')
  {
  }

  // ------------------------------------------------------------- hazard path

  lemma ReadKeepsOther(s: State, t: Tid, a: ReadStep, u: Tid)
    requires Inv(s) && CanRead(s, t, a) && u in s.threads && u != t
    ensures var s' := DoRead(s, t, a); u in s'.threads && ThreadOk(s', u, s'.threads[u])
  {
    assert ThreadOk(s, u, s.threads[u]);
    assert SameFor(s, DoRead(s, t, a), t, u);
    ThreadFrame(s, DoRead(s, t, a), t, u);
  }

  lemma ReadKeepsSelf(s: State, t: Tid, a: ReadStep)
    requires Inv(s) && CanRead(s, t, a)
    ensures var s' := DoRead(s, t, a); t in s'.threads && ThreadOk(s', t, s'.threads[t])
  {
    var th := s.threads[t];
    assert ThreadOk(s, t, th);
    if a.Validate? { assert SourceOk(s, th.pc.src); }
  }

  /** The reader's increment hits a live snapshot. */
  lemma ReaderCountsLive(s: State, t: Tid)
    requires Inv(s) && CanRead(s, t, Count) && s.threads[t].pc.snap != NULL
    ensures s.threads[t].pc.snap in s.refs && s.refs[s.threads[t].pc.snap] > 0
  {
    assert ThreadOk(s, t, s.threads[t]) && CountOk(s, s.threads[t].pc.snap);
  }

  lemma ReadKeepsRest(s: State, t: Tid, a: ReadStep)
    requires Inv(s) && CanRead(s, t, a)
    ensures var s' := DoRead(s, t, a);
      && s'.refs.Keys == s'.stage.Keys && s'.sources == s.sources && s'.stage == s.stage
      && (forall x | x in s'.held :: x in s'.refs)
  {
    hide SlotsOk;
    assert ThreadOk(s, t, s.threads[t]);
    if a.Count? && s.threads[t].pc.snap != NULL { ReaderCountsLive(s, t); }
  }

  lemma ClaimKeepsSlots(s: State, t: Tid, i: int)
    requires Shaped(s) && SlotsOk(s) && CanRead(s, t, ClaimSlot(i))
    ensures Shaped(DoRead(s, t, ClaimSlot(i))) && SlotsOk(DoRead(s, t, ClaimSlot(i)))
  {
  }

  lemma UnclaimKeepsSlots(s: State, t: Tid)
    requires Shaped(s) && SlotsOk(s) && CanRead(s, t, ExitUnclaim)
    ensures Shaped(DoRead(s, t, ExitUnclaim)) && SlotsOk(DoRead(s, t, ExitUnclaim))
  {
  }

  lemma ReadKeepsSlots(s: State, t: Tid, a: ReadStep)
    requires Inv(s) && CanRead(s, t, a)
    ensures Shaped(DoRead(s, t, a)) && SlotsOk(DoRead(s, t, a))
  {
    hide CountOk, SourceOk, ThreadOk, SlotsOk;
    if a.ClaimSlot? {
      ClaimKeepsSlots(s, t, a.i);
    } else if a.ExitUnclaim? {
      UnclaimKeepsSlots(s, t);
    } else {
      SlotsFrame(s, DoRead(s, t, a));
    }
  }

  lemma ReadKeepsCount(s: State, t: Tid, a: ReadStep, x: Addr)
    requires Inv(s) && CanRead(s, t, a) && x in s.refs
    ensures x in DoRead(s, t, a).refs && CountOk(DoRead(s, t, a), x)
  {
    assert ThreadOk(s, t, s.threads[t]) && CountOk(s, x);
  }

  lemma ReadKeepsInv(s: State, t: Tid, a: ReadStep)
    requires Inv(s) && CanRead(s, t, a)
    ensures Inv(DoRead(s, t, a))
  {
    var s' := DoRead(s, t, a);
    ReadKeepsSlots(s, t, a);
    ReadKeepsRest(s, t, a);
    forall x | x in s'.refs ensures CountOk(s', x) { ReadKeepsCount(s, t, a, x); }
    forall src | src in s'.sources ensures SourceOk(s', src) { assert SourceOk(s, src); }
    forall u | u in s'.threads ensures ThreadOk(s', u, s'.threads[u]) {
      if u == t { ReadKeepsSelf(s, t, a); } else { ReadKeepsOther(s, t, a, u); }
    }
  }

  // --------------------------------------------------------------- lock path

  /** Under the lock a published snapshot stays published, so the increment hits a live one. */
  lemma LockedCountsLive(s: State, t: Tid)
    requires Inv(s) && CanLock(s, t, LockedCount) && s.threads[t].pc.snap != NULL
    ensures s.threads[t].pc.snap in s.refs && s.refs[s.threads[t].pc.snap] > 0
  {
    assert ThreadOk(s, t, s.threads[t]) && SourceOk(s, s.threads[t].pc.src) && CountOk(s, s.threads[t].pc.snap);
  }

  lemma LockKeepsOther(s: State, t: Tid, a: LockStep, u: Tid)
    requires Inv(s) && CanLock(s, t, a) && !a.SwapStore? && u in s.threads && u != t
    ensures var s' := DoLock(s, t, a); u in s'.threads && ThreadOk(s', u, s'.threads[u])
  {
    hide SlotsOk, Protected, DoLock, CountOk, SourceOk;
    assert ThreadOk(s, u, s.threads[u]) && ThreadOk(s, t, s.threads[t]);
    LockShape(s, t, a);
    LocksFrame(s, DoLock(s, t, a), t, u);
  }

  /** What a step under a lock other than the store itself leaves alone. */
  lemma LockShape(s: State, t: Tid, a: LockStep)
    requires CanLock(s, t, a) && !a.SwapStore? && ThreadOk(s, t, s.threads[t])
    ensures var s' := DoLock(s, t, a);
      && s'.sources == s.sources && s'.stage == s.stage && s'.hazards == s.hazards
      && (forall v | v in s.threads && v != t :: v in s'.threads && s'.threads[v] == s.threads[v])
      && !s.threads[t].pc.Scanning?
      && (forall o | o in s.locks && s.locks[o] != t :: o in s'.locks && s'.locks[o] == s.locks[o])
  {
    hide Protected, Announced;
  }

  /** A thread keeps the locks it has, whoever else takes or gives up others. */
  lemma LocksFrame(s: State, s': State, t: Tid, u: Tid)
    requires t in s.threads && u in s.threads && u != t && SameFor(s, s', t, u)
    requires s'.sources == s.sources && s'.stage == s.stage
    requires forall o | o in s.locks && s.locks[o] == u :: o in s'.locks && s'.locks[o] == u
    requires ThreadOk(s, u, s.threads[u])
    ensures ThreadOk(s', u, s.threads[u])
  {
    ThreadFrame(s, s'.(locks := s.locks), t, u);
  }

  lemma SwapKeepsOther(s: State, t: Tid, u: Tid)
    requires Inv(s) && CanLock(s, t, SwapStore) && u in s.threads && u != t
    ensures var s' := DoLock(s, t, SwapStore); u in s'.threads && ThreadOk(s', u, s'.threads[u])
  {
    var th := s.threads[u];
    assert ThreadOk(s, u, th) && ThreadOk(s, t, s.threads[t]) && SourceOk(s, s.threads[t].pc.src);
    if th.pc.Validated? && th.pc.snap != NULL { assert CountOk(s, th.pc.snap); }
  }

  lemma LockKeepsSelf(s: State, t: Tid, a: LockStep)
    requires Inv(s) && CanLock(s, t, a)
    ensures var s' := DoLock(s, t, a); t in s'.threads && ThreadOk(s', t, s'.threads[t])
  {
    assert ThreadOk(s, t, s.threads[t]);
  }

  lemma LockKeepsRest(s: State, t: Tid, a: LockStep)
    requires Inv(s) && CanLock(s, t, a)
    ensures var s' := DoLock(s, t, a);
      && s'.refs.Keys == s'.stage.Keys == s.refs.Keys
      && (forall x | x in s'.held :: x in s'.refs)
  {
    hide SlotsOk;
    assert ThreadOk(s, t, s.threads[t]);
    if a.LockedCount? && s.threads[t].pc.snap != NULL { LockedCountsLive(s, t); }
    if a.SwapStore? { assert SourceOk(s, s.threads[t].pc.src); }
  }

  lemma LockKeepsSlots(s: State, t: Tid, a: LockStep)
    requires Inv(s) && CanLock(s, t, a)
    ensures Shaped(DoLock(s, t, a)) && SlotsOk(DoLock(s, t, a))
  {
    hide CountOk, SourceOk, ThreadOk, SlotsOk;
    SlotsFrame(s, DoLock(s, t, a));
  }

  lemma LockKeepsCount(s: State, t: Tid, a: LockStep, x: Addr)
    requires Inv(s) && CanLock(s, t, a) && x in s.refs
    ensures var s' := DoLock(s, t, a); x in s'.refs && x in s'.stage && CountOk(s', x)
  {
    assert ThreadOk(s, t, s.threads[t]) && CountOk(s, x);
    if a.LockedCount? && s.threads[t].pc.snap != NULL { LockedCountsLive(s, t); }
    if a.SwapStore? { assert SourceOk(s, s.threads[t].pc.src); }
  }

  lemma LockKeepsSource(s: State, t: Tid, a: LockStep, src: Source)
    requires Inv(s) && CanLock(s, t, a) && src in DoLock(s, t, a).sources
    ensures SourceOk(DoLock(s, t, a), src)
  {
    hide SlotsOk;
    assert ThreadOk(s, t, s.threads[t]);
    if a.SwapStore? { assert SourceOk(s, s.threads[t].pc.src); }
    assert SourceOk(s, src);
  }

  lemma LockKeepsInv(s: State, t: Tid, a: LockStep)
    requires Inv(s) && CanLock(s, t, a)
    ensures Inv(DoLock(s, t, a))
  {
    var s' := DoLock(s, t, a);
    LockKeepsSlots(s, t, a);
    LockKeepsRest(s, t, a);
    forall x | x in s'.refs ensures CountOk(s', x) { LockKeepsCount(s, t, a, x); }
    forall src | src in s'.sources ensures SourceOk(s', src) { LockKeepsSource(s, t, a, src); }
    forall u | u in s'.threads ensures ThreadOk(s', u, s'.threads[u]) {
      if u == t {
        LockKeepsSelf(s, t, a);
      } else if a.SwapStore? {
        SwapKeepsOther(s, t, u);
      } else {
        LockKeepsOther(s, t, a, u);
      }
    }
  }

  // ------------------------------------------------------------- reclamation

  ghost predicate Dropping(a: MemStep) { a.DropRetired? || a.Release? || a.Discard? }

  /** The snapshot a dropping step drops a reference on. */
  ghost function Target(s: State, t: Tid, a: MemStep): Addr
    requires Shaped(s) && CanMem(s, t, a) && Dropping(a)
  {
    if a.DropRetired? then s.threads[t].pc.snap else a.a
  }

  /** A decrement hits a live snapshot, and only the last reference reaches zero. */
  lemma DropsLive(s: State, t: Tid, a: MemStep)
    requires Inv(s) && CanMem(s, t, a) && Dropping(a)
    ensures var x := Target(s, t, a);
      && x in s.refs && x in s.stage && s.refs[x] > 0
      && (s.refs[x] == 1 ==> s.held[x] == (if a.Release? then 1 else 0) && (a.Release? ==> s.stage[x].Dropped?))
  {
    assert ThreadOk(s, t, s.threads[t]) && CountOk(s, Target(s, t, a));
  }

  /** The scan passes a slot only while no protected reader announces the snapshot there. */
  lemma ScanKeepsOther(s: State, t: Tid, u: Tid)
    requires Inv(s) && CanMem(s, t, Scan) && u in s.threads && u != t
    ensures var s' := DoMem(s, t, Scan); u in s'.threads && ThreadOk(s', u, s'.threads[u])
  {
    var th := s.threads[u];
    assert ThreadOk(s, u, th) && ThreadOk(s, t, s.threads[t]);
    if th.pc.Validated? && th.pc.snap != NULL { assert CountOk(s, th.pc.snap); }
  }

  /** Thread `u` does not count on snapshot `x` staying in its stage. */
  ghost predicate Careless(s: State, u: Tid, x: Addr)
    requires u in s.threads
  {
    var pc := s.threads[u].pc;
    && (pc.Validated? || pc.Scanning? || pc.Freeing? ==> pc.snap != x || x == NULL)
    && (pc.SwapLocked? || pc.SwapLoaded? ==> pc.incoming != x || x == NULL)
  }

  lemma StageFrame(s: State, s': State, t: Tid, u: Tid, x: Addr)
    requires t in s.threads && u in s.threads && u != t && Careless(s, u, x) && x != NULL
    requires s'.sources == s.sources && s'.locks == s.locks && s'.hazards == s.hazards
    requires forall v | v in s.threads && v != t :: v in s'.threads && s'.threads[v] == s.threads[v]
    requires forall y | y in s.stage && y != x :: y in s'.stage && s'.stage[y] == s.stage[y]
    requires forall y | y in s.stage && y != x && s.stage[y].Reclaiming? :: s.stage[y].tid != t
    requires ThreadOk(s, u, s.threads[u])
    ensures ThreadOk(s', u, s.threads[u])
  {
  }

  /** What a reclaimer scans for is the only snapshot whose stage names it. */
  lemma ReclaimsOne(s: State, t: Tid, x: Addr)
    requires Inv(s) && t in s.threads && (s.threads[t].pc.Scanning? ==> s.threads[t].pc.snap == x)
    ensures forall y | y in s.stage && y != x && s.stage[y].Reclaiming? :: s.stage[y].tid != t
  {
    forall y | y in s.stage && y != x && s.stage[y].Reclaiming? ensures s.stage[y].tid != t { assert CountOk(s, y); }
  }

  /** Nobody protects, or is about to publish, a snapshot whose last reference goes away. */
  lemma DropIsCareless(s: State, t: Tid, a: MemStep, u: Tid)
    requires Inv(s) && CanMem(s, t, a) && Dropping(a) && u in s.threads && u != t
    requires !(a.Release? && s.refs[Target(s, t, a)] != 1)
    ensures Careless(s, u, Target(s, t, a))
  {
    assert ThreadOk(s, u, s.threads[u]) && ThreadOk(s, t, s.threads[t]) && CountOk(s, Target(s, t, a));
  }

  /** What dropping a reference leaves alone. */
  lemma DropShape(s: State, t: Tid, a: MemStep)
    requires Inv(s) && CanMem(s, t, a) && Dropping(a)
    ensures var s', x := DoMem(s, t, a), Target(s, t, a);
      && t in s.threads && s'.sources == s.sources && s'.locks == s.locks && s'.hazards == s.hazards && x != NULL
      && (forall v | v in s.threads && v != t :: v in s'.threads && s'.threads[v] == s.threads[v])
      && (forall y | y in s.stage && y != x :: y in s'.stage && s'.stage[y] == s.stage[y])
      && (a.Release? && s.refs[x] != 1 ==> s'.stage == s.stage && !s.threads[t].pc.Scanning?)
      && (s.threads[t].pc.Scanning? ==> s.threads[t].pc.snap == x)
  {
    hide SlotsOk, Protected, ThreadOk, SourceOk;
    DropsLive(s, t, a);
    assert CountOk(s, Target(s, t, a));
  }

  lemma DropKeepsOther(s: State, t: Tid, a: MemStep, u: Tid)
    requires Inv(s) && CanMem(s, t, a) && Dropping(a) && u in s.threads && u != t
    ensures var s' := DoMem(s, t, a); u in s'.threads && ThreadOk(s', u, s'.threads[u])
  {
    hide SlotsOk, Protected, DoMem, CountOk, SourceOk, CanMem;
    var x := Target(s, t, a);
    DropsLive(s, t, a);
    DropShape(s, t, a);
    assert ThreadOk(s, u, s.threads[u]);
    if a.Release? && s.refs[x] != 1 {
      ThreadFrame(s, DoMem(s, t, a), t, u);
    } else {
      DropIsCareless(s, t, a, u);
      ReclaimsOne(s, t, x);
      StageFrame(s, DoMem(s, t, a), t, u, x);
    }
  }

  lemma StagingKeepsOther(s: State, t: Tid, a: MemStep, u: Tid)
    requires Inv(s) && CanMem(s, t, a) && (a.Allocate? || a.Free?) && u in s.threads && u != t
    ensures var s' := DoMem(s, t, a); u in s'.threads && ThreadOk(s', u, s'.threads[u])
  {
    hide SlotsOk, Protected;
    var x := if a.Allocate? then a.a else s.threads[t].pc.snap;
    assert ThreadOk(s, u, s.threads[u]) && ThreadOk(s, t, s.threads[t]);
    if a.Free? { assert CountOk(s, x); }
    assert Careless(s, u, x) by { hide *; StagingIsCareless(s, t, a, u, x); }
    ReclaimsOne(s, t, x);
    StageFrame(s, DoMem(s, t, a), t, u, x);
  }

  lemma StagingIsCareless(s: State, t: Tid, a: MemStep, u: Tid, x: Addr)
    requires Inv(s) && CanMem(s, t, a) && u in s.threads && u != t
    requires a == Allocate(x) || (a == Free && x == s.threads[t].pc.snap)
    ensures Careless(s, u, x)
  {
    assert ThreadOk(s, u, s.threads[u]) && ThreadOk(s, t, s.threads[t]);
  }

  lemma StartKeepsOther(s: State, t: Tid, x: Addr, u: Tid)
    requires Inv(s) && CanMem(s, t, StartReclaim(x)) && u in s.threads && u != t
    ensures var s' := DoMem(s, t, StartReclaim(x)); u in s'.threads && ThreadOk(s', u, s'.threads[u])
  {
    var th := s.threads[u];
    assert ThreadOk(s, u, th) && ThreadOk(s, t, s.threads[t]);
    if th.pc.Validated? && th.pc.snap != NULL { assert CountOk(s, th.pc.snap); }
  }

  lemma MemKeepsSelf(s: State, t: Tid, a: MemStep)
    requires Inv(s) && CanMem(s, t, a)
    ensures var s' := DoMem(s, t, a); t in s'.threads && ThreadOk(s', t, s'.threads[t])
  {
    assert ThreadOk(s, t, s.threads[t]);
    if Dropping(a) { DropsLive(s, t, a); }
  }

  lemma MemKeepsRest(s: State, t: Tid, a: MemStep)
    requires Inv(s) && CanMem(s, t, a)
    ensures var s' := DoMem(s, t, a);
      && s'.refs.Keys == s'.stage.Keys && s'.sources == s.sources
      && (forall x | x in s'.held :: x in s'.refs)
  {
    hide SlotsOk;
    assert ThreadOk(s, t, s.threads[t]);
    if Dropping(a) { DropsLive(s, t, a); }
    if a.Free? { assert CountOk(s, s.threads[t].pc.snap); }
  }

  lemma MemKeepsSlots(s: State, t: Tid, a: MemStep)
    requires Inv(s) && CanMem(s, t, a)
    ensures Shaped(DoMem(s, t, a)) && SlotsOk(DoMem(s, t, a))
  {
    hide CountOk, SourceOk, ThreadOk, SlotsOk;
    SlotsFrame(s, DoMem(s, t, a));
  }

  lemma DropKeepsCount(s: State, t: Tid, a: MemStep, x: Addr)
    requires Inv(s) && CanMem(s, t, a) && Dropping(a) && x in DoMem(s, t, a).refs
    ensures var s' := DoMem(s, t, a); x in s'.stage && CountOk(s', x)
  {
    hide SlotsOk, SourceOk, Protected;
    assert ThreadOk(s, t, s.threads[t]);
    DropsLive(s, t, a);
    if x in s.refs { assert CountOk(s, x); }
  }

  lemma MemKeepsCount(s: State, t: Tid, a: MemStep, x: Addr)
    requires Inv(s) && CanMem(s, t, a) && x in DoMem(s, t, a).refs
    ensures var s' := DoMem(s, t, a); x in s'.stage && CountOk(s', x)
  {
    hide SlotsOk, SourceOk, Protected;
    if Dropping(a) {
      DropKeepsCount(s, t, a, x);
    } else {
      assert ThreadOk(s, t, s.threads[t]);
      if x in s.refs { assert CountOk(s, x); }
    }
  }

  lemma MemKeepsSource(s: State, t: Tid, a: MemStep, src: Source)
    requires Inv(s) && CanMem(s, t, a) && src in s.sources
    ensures var s' := DoMem(s, t, a); src in s'.sources && SourceOk(s', src)
  {
    assert ThreadOk(s, t, s.threads[t]) && SourceOk(s, src);
    if Dropping(a) { DropsLive(s, t, a); assert CountOk(s, Target(s, t, a)); }
  }

  lemma MemKeepsInv(s: State, t: Tid, a: MemStep)
    requires Inv(s) && CanMem(s, t, a)
    ensures Inv(DoMem(s, t, a))
  {
    var s' := DoMem(s, t, a);
    MemKeepsSlots(s, t, a);
    MemKeepsRest(s, t, a);
    forall x | x in s'.refs ensures CountOk(s', x) { MemKeepsCount(s, t, a, x); }
    forall src | src in s'.sources ensures SourceOk(s', src) { MemKeepsSource(s, t, a, src); }
    forall u | u in s'.threads ensures ThreadOk(s', u, s'.threads[u]) {
      if u == t { MemKeepsSelf(s, t, a); }
      else if a.Scan? { ScanKeepsOther(s, t, u); }
      else if Dropping(a) { DropKeepsOther(s, t, a, u); }
      else if a.StartReclaim? { StartKeepsOther(s, t, a.a, u); }
      else { StagingKeepsOther(s, t, a, u); }
    }
  }

  // --------------------------------------------------------------------- runs

  ghost predicate Next(s: State, s': State, t: Tid, a: Action) { Shaped(s) && Enabled(s, t, a) && s' == Act(s, t, a) }

  ghost predicate Steps(s: State, s': State) { exists t, a :: Next(s, s', t, a) }

  ghost predicate IsRun(run: seq<State>) {
    run != [] && Init(run[0]) && forall i | 0 < i < |run| :: Steps(run[i - 1], run[i])
  }

  lemma {:induction false} RunKeepsInv(run: seq<State>, i: nat)
    requires IsRun(run) && i < |run|
    ensures Inv(run[i])
  {
    hide Inv;
    if i == 0 {
      InitInv(run[0]);
    } else {
      RunKeepsInv(run, i - 1);
      assert Steps(run[i - 1], run[i]);
      var t, a :| Next(run[i - 1], run[i], t, a);
      match a
      case Read(r) => ReadKeepsInv(run[i - 1], t, r);
      case Lock(l) => LockKeepsInv(run[i - 1], t, l);
      case Mem(m) => MemKeepsInv(run[i - 1], t, m);
    }
  }

  /** Whatever the interleaving, no thread counts or drops a reference on a freed snapshot. */
  lemma NoUseAfterFree(run: seq<State>, i: nat, t: Tid)
    requires IsRun(run) && i < |run| && t in run[i].threads
    ensures var s := run[i]; var pc := s.threads[t].pc;
      (pc.Validated? || pc.LockLoaded? || pc.Scanning?) && pc.snap != NULL ==> pc.snap in s.refs && s.refs[pc.snap] > 0
    ensures forall x | x in run[i].held :: x in run[i].refs && run[i].refs[x] > 0
  {
    RunKeepsInv(run, i);
    var s := run[i];
    var pc := s.threads[t].pc;
    assert ThreadOk(s, t, s.threads[t]);
    if pc.LockLoaded? { assert SourceOk(s, pc.src); }
    if (pc.Validated? || pc.LockLoaded? || pc.Scanning?) && pc.snap != NULL { assert CountOk(s, pc.snap); }
    forall x | x in s.held ensures x in s.refs && s.refs[x] > 0 { assert CountOk(s, x); }
  }

  /** A snapshot is freed only when it is unpublished, nobody holds it, and no reader stands
      between finding it published and counting its reference. */
  lemma FreedOnlyWhenUnused(run: seq<State>, i: nat, t: Tid, u: Tid)
    requires IsRun(run) && i < |run| && t in run[i].threads && run[i].threads[t].pc.Freeing? && u in run[i].threads
    ensures var s := run[i]; var x := s.threads[t].pc.snap; var pc := s.threads[u].pc;
      && x in s.refs && s.refs[x] == 0 && x !in s.held
      && (forall src | src in s.sources :: s.sources[src] != x)
      && (pc.Validated? || pc.LockLoaded? || pc.Scanning? ==> pc.snap != x)
      && (pc.Freeing? && u != t ==> pc.snap != x)
  {
    RunKeepsInv(run, i);
    var s := run[i];
    var x := s.threads[t].pc.snap;
    assert ThreadOk(s, t, s.threads[t]) && ThreadOk(s, u, s.threads[u]) && CountOk(s, x);
    forall src | src in s.sources ensures s.sources[src] != x { assert SourceOk(s, src); }
  }

  /** The count of a live snapshot is the number of references handed out, plus one while it
      is being built, published or waiting for its release. */
  lemma CountIsHolders(run: seq<State>, i: nat, x: Addr)
    requires IsRun(run) && i < |run| && x in run[i].refs
    ensures var s := run[i];
      && x in s.stage
      && s.refs[x] == s.held[x] + (if Based(s.stage[x]) then 1 else 0)
      && ((exists src :: src in s.sources && s.sources[src] == x) <==> s.stage[x].Published?)
  {
    RunKeepsInv(run, i);
    var s := run[i];
    assert CountOk(s, x);
    forall src | src in s.sources && s.sources[src] == x
      ensures s.stage[x] == Published(src)
    {
      assert SourceOk(s, src);
    }
  }
}

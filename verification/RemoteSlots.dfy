/**
 The remote-slot table of one subscriber (src/peer/session.c): which publisher owns
 which slot, which assignment generation the client has applied, and the one offer
 manifest that is waiting for an answer.

 Every operation runs under `graph.lock`, so each is one atomic step.  Generations are
 unbounded here; the source's 64-bit counters skip zero on wrap-around.
 */
module RemoteSlots {
  import opened Wrappers
  import opened Arithmetic

  const MAX_REMOTE_SLOTS: nat := 299

  datatype SlotState = Free | Active | Retiring | RetiringOffered

  datatype Slot = Slot(state: SlotState, generation: nat, userId: int, peerId: nat)

  const FREE_SLOT := Slot(Free, 0, 0, 0)

  /** A captured offer. Its generation identifies it: captures never share one. */
  datatype Manifest = Manifest(offerGeneration: nat, highWater: nat, generations: seq<nat>)
  {
    ghost predicate WellFormed() {
      && offerGeneration > 0
      && highWater <= MAX_REMOTE_SLOTS == |generations|
      && forall i | highWater <= i < MAX_REMOTE_SLOTS :: generations[i] == 0
    }
  }

  datatype Table = Table(
    slots: seq<Slot>,
    applied: seq<nat>,
    offered: Option<Manifest>,
    nextAssignment: nat,
    nextOffer: nat,
    highWater: nat,
    offeredFloor: nat)
  {
    ghost predicate Shaped() {
      && |slots| == MAX_REMOTE_SLOTS == |applied|
      && highWater <= MAX_REMOTE_SLOTS
      && offeredFloor <= MAX_REMOTE_SLOTS
      && (offered.Some? ==> offered.value.WellFormed())
    }

    predicate Authorized(slot: nat, generation: nat)
      requires |applied| == MAX_REMOTE_SLOTS
    {
      slot < MAX_REMOTE_SLOTS && generation != 0 && applied[slot] == generation
    }

    ghost predicate Holds(slot: nat, generation: nat)
      requires |slots| == MAX_REMOTE_SLOTS
    {
      slot < MAX_REMOTE_SLOTS && !slots[slot].state.Free? && slots[slot].generation == generation
    }
  }

  // ---------------------------------------------------------------- operations

  predicate ActiveFor(s: Slot, userId: int, peerId: nat) {
    s.state.Active? && s.peerId == peerId && s.userId == userId
  }

  /** The first slot of `peerId`'s that is active, or the end of the table. */
  function FirstActiveFor(slots: seq<Slot>, userId: int, peerId: nat, from: nat): (k: nat)
    requires from <= |slots|
    ensures from <= k <= |slots|
    ensures k < |slots| ==> ActiveFor(slots[k], userId, peerId)
    ensures forall j | from <= j < k :: !ActiveFor(slots[j], userId, peerId)
    decreases |slots| - from
  {
    if from == |slots| || ActiveFor(slots[from], userId, peerId) then from
    else FirstActiveFor(slots, userId, peerId, from + 1)
  }

  function FirstFree(slots: seq<Slot>, from: nat): (k: nat)
    requires from <= |slots|
    ensures from <= k <= |slots|
    ensures k < |slots| ==> slots[k].state.Free?
    ensures forall j | from <= j < k :: !slots[j].state.Free?
    decreases |slots| - from
  {
    if from == |slots| || slots[from].state.Free? then from else FirstFree(slots, from + 1)
  }

  function Reserve(t: Table, userId: int, peerId: nat): (r: (Table, Option<(nat, nat)>))
    requires t.Shaped()
    ensures r.0.Shaped()
  {
    var existing := FirstActiveFor(t.slots, userId, peerId, 0);
    var free := FirstFree(t.slots, 0);
    if peerId == 0 then (t, None)
    else if existing < MAX_REMOTE_SLOTS then (t, Some((existing, t.slots[existing].generation)))
    else if free == MAX_REMOTE_SLOTS then (t, None)
    else
      var generation: nat := t.nextAssignment + 1;
      (t.(slots := t.slots[free := Slot(Active, generation, userId, peerId)],
          nextAssignment := generation,
          highWater := if free >= t.highWater then free + 1 else t.highWater),
       Some((free, generation)))
  }

  predicate OfferedAt(t: Table, slot: nat, generation: nat)
    requires t.Shaped() && slot < MAX_REMOTE_SLOTS
  {
    t.offered.Some? && t.offered.value.generations[slot] == generation
  }

  /** May the last slot under the high-water mark be given up after a retirement? */
  predicate CanTrimOnRetire(t: Table, last: nat)
    requires t.Shaped() && last < MAX_REMOTE_SLOTS
  {
    && CanTrimOnAnswer(t, last)
    && !(t.offered.Some? && last < t.offered.value.highWater && t.offered.value.generations[last] != 0)
    && t.offeredFloor <= last
  }

  predicate CanTrimOnAnswer(t: Table, last: nat)
    requires t.Shaped() && last < MAX_REMOTE_SLOTS
  {
    t.slots[last].state.Free? && t.applied[last] == 0
  }

  function TrimOnRetire(t: Table, mark: nat): (r: nat)
    requires t.Shaped() && mark <= MAX_REMOTE_SLOTS
    ensures r <= mark
    ensures forall i | r <= i < mark :: t.slots[i].state.Free? && t.applied[i] == 0
  {
    if mark > 0 && CanTrimOnRetire(t, mark - 1) then TrimOnRetire(t, mark - 1) else mark
  }

  function TrimOnAnswer(t: Table, mark: nat): (r: nat)
    requires t.Shaped() && mark <= MAX_REMOTE_SLOTS
    ensures r <= mark
    ensures forall i | r <= i < mark :: t.slots[i].state.Free? && t.applied[i] == 0
  {
    if mark > 0 && CanTrimOnAnswer(t, mark - 1) then TrimOnAnswer(t, mark - 1) else mark
  }

  function Retire(t: Table, slot: nat, generation: nat): (r: (Table, bool))
    requires t.Shaped()
    ensures r.0.Shaped()
  {
    if slot >= MAX_REMOTE_SLOTS || generation == 0 then (t, false)
    else
      var s := t.slots[slot];
      if !(s.state.Active? && s.generation == generation) then (t, false)
      else if OfferedAt(t, slot, generation) then
        (t.(slots := t.slots[slot := s.(state := RetiringOffered)]), true)
      else if t.applied[slot] == generation then
        (t.(slots := t.slots[slot := s.(state := Retiring)]), true)
      else
        var freed := t.(slots := t.slots[slot := FREE_SLOT]);
        (freed.(highWater := TrimOnRetire(freed, freed.highWater)), true)
  }

  /** What a capture offers: the active slots under `mark`. */
  function CapturedGenerations(t: Table, mark: nat): seq<nat>
    requires t.Shaped()
  {
    seq(MAX_REMOTE_SLOTS, i requires 0 <= i < MAX_REMOTE_SLOTS =>
      if i < mark && t.slots[i].state.Active? then t.slots[i].generation else 0)
  }

  function Capture(t: Table): (r: (Table, Manifest))
    requires t.Shaped()
    ensures r.1.WellFormed() && r.1.offerGeneration == r.0.nextOffer
  {
    var mark := Max(t.highWater, t.offeredFloor);
    (t.(nextOffer := t.nextOffer + 1), Manifest(t.nextOffer + 1, mark, CapturedGenerations(t, mark)))
  }

  /** The check an install makes: what the manifest offers is still actively assigned. */
  predicate StillActive(t: Table, m: Manifest)
    requires t.Shaped() && m.WellFormed()
  {
    forall i | 0 <= i < m.highWater ::
      m.generations[i] != 0 ==> t.slots[i].state.Active? && t.slots[i].generation == m.generations[i]
  }

  function InstalledSlot(t: Table, m: Manifest, i: nat): Slot
    requires t.Shaped() && m.WellFormed() && i < MAX_REMOTE_SLOTS
  {
    if i < t.highWater && t.slots[i].state.Retiring? && m.generations[i] == 0
    then t.slots[i].(state := RetiringOffered)
    else t.slots[i]
  }

  function InstalledSlots(t: Table, m: Manifest): seq<Slot>
    requires t.Shaped() && m.WellFormed()
  {
    seq(MAX_REMOTE_SLOTS, i requires 0 <= i < MAX_REMOTE_SLOTS => InstalledSlot(t, m, i))
  }

  function Install(t: Table, m: Manifest): (Table, bool)
    requires t.Shaped() && m.WellFormed()
  {
    if t.offered.Some? && t.offered.value.offerGeneration >= m.offerGeneration then (t, false)
    else if !StillActive(t, m) then (t, false)
    else
      (t.(slots := InstalledSlots(t, m),
          offered := Some(m),
          offeredFloor := Max(m.highWater, t.offeredFloor)), true)
  }

  /** The check an answer makes before it changes anything. */
  predicate GenerationsMatch(t: Table, m: Manifest)
    requires t.Shaped() && m.WellFormed()
  {
    forall i | 0 <= i < m.highWater :: m.generations[i] != 0 ==> t.slots[i].generation == m.generations[i]
  }

  function AnsweredSlot(s: Slot, offered: nat): Slot {
    if !(s.state.Retiring? || s.state.RetiringOffered?) then s
    else if offered == 0 then FREE_SLOT
    else s.(state := Retiring)
  }

  /** The slots and applied generations after the answer loop, which stops at the high-water mark. */
  function AnsweredSlots(t: Table, m: Manifest): seq<Slot>
    requires t.Shaped() && m.WellFormed()
  {
    seq(MAX_REMOTE_SLOTS, i requires 0 <= i < MAX_REMOTE_SLOTS =>
      if i < t.highWater then AnsweredSlot(t.slots[i], m.generations[i]) else t.slots[i])
  }

  function AnsweredGenerations(t: Table, m: Manifest): seq<nat>
    requires t.Shaped() && m.WellFormed()
  {
    seq(MAX_REMOTE_SLOTS, i requires 0 <= i < MAX_REMOTE_SLOTS =>
      if i < t.highWater then m.generations[i] else t.applied[i])
  }

  function ApplyAnswer(t: Table, m: Manifest): (Table, bool)
    requires t.Shaped() && m.WellFormed()
  {
    if t.offered != Some(m) then (t, false)
    else if !GenerationsMatch(t, m) then (t, false)
    else
      var answered := t.(slots := AnsweredSlots(t, m), applied := AnsweredGenerations(t, m));
      (answered.(highWater := TrimOnAnswer(answered, answered.highWater), offered := None), true)
  }

  /** A table with no assignments; a teardown keeps the generation counters. */
  function ClearedTable(nextAssignment: nat, nextOffer: nat): Table {
    Table(seq(MAX_REMOTE_SLOTS, _ => FREE_SLOT), seq(MAX_REMOTE_SLOTS, _ => 0), None, nextAssignment, nextOffer, 0, 0)
  }

  function Teardown(t: Table): Table { ClearedTable(t.nextAssignment, t.nextOffer) }

  /** An active slot the client has not applied, or an applied one that is no longer active. */
  predicate SlotPending(t: Table, i: nat)
    requires t.Shaped() && i < MAX_REMOTE_SLOTS
  {
    if t.slots[i].state.Active? then t.applied[i] != t.slots[i].generation else t.applied[i] != 0
  }

  predicate Pending(t: Table)
    requires t.Shaped()
  {
    exists i :: 0 <= i < t.highWater && SlotPending(t, i)
  }

  // ----------------------------------------------------------------- invariant

  ghost predicate SlotOk(t: Table, i: nat)
    requires t.Shaped() && i < MAX_REMOTE_SLOTS
  {
    var s := t.slots[i];
    match s.state
    case Free => s == FREE_SLOT && t.applied[i] == 0
    case Active =>
      0 < s.generation <= t.nextAssignment && s.peerId != 0 && (t.applied[i] == 0 || t.applied[i] == s.generation)
    case Retiring => 0 < s.generation <= t.nextAssignment && t.applied[i] == s.generation
    case RetiringOffered =>
      0 < s.generation <= t.nextAssignment && (t.applied[i] == 0 || t.applied[i] == s.generation) && t.offered.Some?
  }

  /** Everything the installed manifest offers is still held under the offered generation. */
  ghost predicate OfferHeld(t: Table)
    requires t.Shaped()
  {
    t.offered.Some? ==>
      forall i | 0 <= i < MAX_REMOTE_SLOTS :: t.offered.value.generations[i] != 0 ==>
        && (t.slots[i].state.Active? || t.slots[i].state.RetiringOffered?)
        && t.slots[i].generation == t.offered.value.generations[i]
  }

  /** Held slots have distinct generations, and active ones distinct publishers. */
  ghost predicate SlotsDistinct(slots: seq<Slot>) {
    forall i, j | 0 <= i < j < |slots| && !slots[i].state.Free? && !slots[j].state.Free? ::
      && slots[i].generation != slots[j].generation
      && (slots[i].state.Active? && slots[j].state.Active? ==>
            slots[i].userId != slots[j].userId || slots[i].peerId != slots[j].peerId)
  }

  ghost predicate Inv(t: Table) {
    && t.Shaped()
    && (forall i | 0 <= i < MAX_REMOTE_SLOTS :: SlotOk(t, i))
    && (forall i | t.highWater <= i < MAX_REMOTE_SLOTS :: t.slots[i].state.Free?)
    && SlotsDistinct(t.slots)
    && OfferHeld(t)
    && (t.offered.Some? ==> t.offered.value.offerGeneration <= t.nextOffer)
  }

  /** Does the publisher have an active slot already? */
  ghost predicate Known(t: Table, userId: int, peerId: nat)
    requires t.Shaped()
  {
    exists i :: 0 <= i < MAX_REMOTE_SLOTS && ActiveFor(t.slots[i], userId, peerId)
  }

  /** A reservation assigns a slot to the publisher and leaves every held slot alone.  A known
      publisher keeps its slot, another gets a free one under a generation never used before;
      it fails only for peer 0 or when an unknown publisher finds no free slot. */
  lemma ReserveKeepsInv(t: Table, userId: int, peerId: nat)
    requires Inv(t)
    ensures var (t', r) := Reserve(t, userId, peerId);
      && Inv(t') && t'.nextOffer == t.nextOffer
      && (r.Some? ==> r.value.0 < MAX_REMOTE_SLOTS && t'.slots[r.value.0] == Slot(Active, r.value.1, userId, peerId))
      && (r.Some? && Known(t, userId, peerId) ==> t' == t)
      && (r.Some? && !Known(t, userId, peerId) ==> t.slots[r.value.0].state.Free? && r.value.1 > t.nextAssignment)
      && (r.None? <==>
            || peerId == 0
            || (!Known(t, userId, peerId) && forall i | 0 <= i < MAX_REMOTE_SLOTS :: !t.slots[i].state.Free?))
      && (forall i | 0 <= i < MAX_REMOTE_SLOTS && !t.slots[i].state.Free? :: t'.slots[i] == t.slots[i])
      && (forall i | 0 <= i < MAX_REMOTE_SLOTS && (r.None? || i != r.value.0) :: t'.slots[i] == t.slots[i])
  {
    var t' := Reserve(t, userId, peerId).0;
    forall i | 0 <= i < MAX_REMOTE_SLOTS
      ensures SlotOk(t', i) && t.slots[i].generation <= t.nextAssignment
    {
      assert SlotOk(t, i);
    }
    if t' != t {
      assert forall j | 0 <= j < MAX_REMOTE_SLOTS :: !ActiveFor(t.slots[j], userId, peerId);
    }
  }

  /** A retirement touches only its own slot, and matches exactly an active assignment.  The
      slot is free at once exactly when the client was neither offered nor has applied it. */
  lemma RetireKeepsInv(t: Table, slot: nat, generation: nat)
    requires Inv(t)
    ensures var (t', matched) := Retire(t, slot, generation);
      && Inv(t') && t'.nextOffer == t.nextOffer
      && (matched <==> slot < MAX_REMOTE_SLOTS && t.slots[slot].state.Active? && t.slots[slot].generation == generation)
      && (matched ==> !t'.slots[slot].state.Active?)
      && (matched ==>
            (t'.slots[slot].state.Free? <==> t.applied[slot] != generation && !OfferedAt(t, slot, generation)))
      && (matched && !t'.slots[slot].state.Free? ==> t'.Holds(slot, generation))
      && (matched ==> (t'.slots[slot].state.RetiringOffered? <==> OfferedAt(t, slot, generation)))
      && (forall i | 0 <= i < MAX_REMOTE_SLOTS && i != slot :: t'.slots[i] == t.slots[i])
  {
    var t' := Retire(t, slot, generation).0;
    if slot < MAX_REMOTE_SLOTS { assert SlotOk(t, slot); }
    forall i | 0 <= i < MAX_REMOTE_SLOTS ensures SlotOk(t', i) { assert SlotOk(t, i); }
  }

  lemma CaptureKeepsInv(t: Table)
    requires Inv(t)
    ensures Inv(Capture(t).0)
  {
    var t' := Capture(t).0;
    forall i | 0 <= i < MAX_REMOTE_SLOTS ensures SlotOk(t', i) { assert SlotOk(t, i); }
  }

  /** An install replaces the manifest or changes nothing; it touches no active slot and no
      applied generation. */
  lemma InstallKeepsInv(t: Table, m: Manifest)
    requires Inv(t) && m.WellFormed() && m.offerGeneration <= t.nextOffer
    ensures var (t', ok) := Install(t, m);
      && Inv(t') && (if ok then t'.offered == Some(m) && OfferHeld(t') else t' == t)
      && t'.applied == t.applied
      && (forall i | 0 <= i < MAX_REMOTE_SLOTS && t.slots[i].state.Active? :: t'.slots[i] == t.slots[i])
      && (forall i | 0 <= i < MAX_REMOTE_SLOTS :: t'.slots[i].generation == t.slots[i].generation)
  {
    var t' := Install(t, m).0;
    forall i | 0 <= i < MAX_REMOTE_SLOTS ensures SlotOk(t', i) { assert SlotOk(t, i); }
  }

  /** An answer succeeds exactly for the installed manifest; no active slot changes, and of the
      others exactly the ones that were not offered are free afterwards. */
  lemma ApplyAnswerKeepsInv(t: Table, m: Manifest)
    requires Inv(t) && m.WellFormed()
    ensures var (t', ok) := ApplyAnswer(t, m);
      && Inv(t') && (ok <==> t.offered == Some(m)) && (!ok ==> t' == t)
      && (forall i | 0 <= i < MAX_REMOTE_SLOTS && t.slots[i].state.Active? :: t'.slots[i] == t.slots[i])
      && (ok ==>
            forall i | 0 <= i < MAX_REMOTE_SLOTS && !t.slots[i].state.Active? ::
              t'.slots[i].state.Free? <==> m.generations[i] == 0)
  {
    if t.offered == Some(m) {
      assert GenerationsMatch(t, m);
      var t' := ApplyAnswer(t, m).0;
      forall i | 0 <= i < MAX_REMOTE_SLOTS ensures SlotOk(t', i) { assert SlotOk(t, i); }
    }
  }

  /** After an answer exactly what its manifest offered is authorised. */
  lemma AnswerAuthorizesOffer(t: Table, m: Manifest, slot: nat, generation: nat)
    requires Inv(t) && m.WellFormed() && ApplyAnswer(t, m).1 && slot < MAX_REMOTE_SLOTS
    ensures var t' := ApplyAnswer(t, m).0;
      && t'.offered.None? && |t'.applied| == MAX_REMOTE_SLOTS
      && (t'.Authorized(slot, generation) <==> generation != 0 && m.generations[slot] == generation)
  {
    assert SlotOk(t, slot);
    assert m.generations[slot] != 0 ==> slot < t.highWater;
  }

  // ------------------------------------------------------------------- runs

  datatype Op =
    | DoReserve(userId: int, peerId: nat)
    | DoRetire(slot: nat, generation: nat)
    | DoCapture
    | DoInstall(index: nat)
    | DoAnswer(index: nat)
    | DoTeardown

  /** The table and every manifest captured so far; installs and answers name one of those. */
  datatype System = System(table: Table, captured: seq<Manifest>)

  ghost predicate SystemInv(s: System) {
    && Inv(s.table)
    && forall m | m in s.captured :: m.WellFormed() && m.offerGeneration <= s.table.nextOffer
  }

  function Step(s: System, op: Op): System
    requires s.table.Shaped() && forall m | m in s.captured :: m.WellFormed()
  {
    match op
    case DoReserve(u, p) => s.(table := Reserve(s.table, u, p).0)
    case DoRetire(k, g) => s.(table := Retire(s.table, k, g).0)
    case DoCapture => var (t, m) := Capture(s.table); System(t, s.captured + [m])
    case DoInstall(i) => if i < |s.captured| then s.(table := Install(s.table, s.captured[i]).0) else s
    case DoAnswer(i) => if i < |s.captured| then s.(table := ApplyAnswer(s.table, s.captured[i]).0) else s
    case DoTeardown => s.(table := Teardown(s.table))
  }

  lemma StepKeepsInv(s: System, op: Op)
    requires SystemInv(s)
    ensures SystemInv(Step(s, op))
  {
    match op
    case DoReserve(u, p) => ReserveKeepsInv(s.table, u, p);
    case DoRetire(k, g) => RetireKeepsInv(s.table, k, g);
    case DoCapture => CaptureKeepsInv(s.table);
    case DoInstall(i) => if i < |s.captured| { InstallKeepsInv(s.table, s.captured[i]); }
    case DoAnswer(i) => if i < |s.captured| { ApplyAnswerKeepsInv(s.table, s.captured[i]); }
    case DoTeardown =>
  }

  ghost function RunFrom(s: System, ops: seq<Op>): (r: System)
    requires SystemInv(s)
    ensures SystemInv(r)
    decreases |ops|
  {
    if ops == [] then s
    else
      StepKeepsInv(s, ops[0]);
      RunFrom(Step(s, ops[0]), ops[1..])
  }

  ghost function Run(ops: seq<Op>): System {
    RunFrom(System(ClearedTable(0, 0), []), ops)
  }

  /** In every reachable table, a slot is authorised under g exactly when it is held
      under g and the client has applied some generation for it. */
  lemma AuthorizationIsExact(ops: seq<Op>, slot: nat, generation: nat)
    ensures var t := Run(ops).table;
      t.Authorized(slot, generation) <==> (t.Holds(slot, generation) && t.applied[slot] != 0)
    ensures var t := Run(ops).table;
      slot < MAX_REMOTE_SLOTS && t.slots[slot].state.Free? ==> !t.Authorized(slot, generation)
  {
    var t := Run(ops).table;
    if slot < MAX_REMOTE_SLOTS { assert SlotOk(t, slot); }
  }

  /** A generation that was issued and is no longer held by any slot. */
  ghost predicate Spent(t: Table, generation: nat)
    requires t.Shaped()
  {
    0 < generation <= t.nextAssignment && forall i | 0 <= i < MAX_REMOTE_SLOTS :: !t.Holds(i, generation)
  }

  lemma StepKeepsSpent(s: System, op: Op, generation: nat)
    requires SystemInv(s) && Spent(s.table, generation)
    ensures SystemInv(Step(s, op)) && Spent(Step(s, op).table, generation)
  {
    StepKeepsInv(s, op);
    var t, t' := s.table, Step(s, op).table;
    forall i | 0 <= i < MAX_REMOTE_SLOTS ensures !t'.Holds(i, generation) { assert !t.Holds(i, generation); }
  }

  lemma {:induction false} RunKeepsSpent(s: System, ops: seq<Op>, generation: nat)
    requires SystemInv(s) && Spent(s.table, generation)
    ensures Spent(RunFrom(s, ops).table, generation)
    decreases |ops|
  {
    if ops != [] {
      StepKeepsSpent(s, ops[0], generation);
      RunKeepsSpent(Step(s, ops[0]), ops[1..], generation);
    }
  }

  /** Once the slot holding a generation was freed, nothing that happens later
      authorises that generation again, on any slot. */
  lemma FreedGenerationStaysDead(s: System, later: seq<Op>, generation: nat, slot: nat)
    requires SystemInv(s) && Spent(s.table, generation)
    ensures !RunFrom(s, later).table.Authorized(slot, generation)
  {
    RunKeepsSpent(s, later, generation);
    var t := RunFrom(s, later).table;
    if slot < MAX_REMOTE_SLOTS { assert SlotOk(t, slot); assert !t.Holds(slot, generation); }
  }

  /** The mismatch check of an answer never fires for the installed manifest. */
  lemma InstalledManifestIsAnswerable(ops: seq<Op>)
    ensures var t := Run(ops).table;
      t.offered.Some? ==> GenerationsMatch(t, t.offered.value) && ApplyAnswer(t, t.offered.value).1
  {
  }

  lemma {:induction false} FloorRises(s: System, ops: seq<Op>)
    requires SystemInv(s) && forall i | 0 <= i < |ops| :: !ops[i].DoTeardown?
    ensures RunFrom(s, ops).table.offeredFloor >= s.table.offeredFloor
    decreases |ops|
  {
    if ops != [] {
      StepKeepsInv(s, ops[0]);
      FloorRises(Step(s, ops[0]), ops[1..]);
    }
  }

  /** Media lines are never withdrawn: until a teardown, every offer captured after an install
      covers at least the slots of the installed one. */
  lemma OffersNeverShrink(s: System, installed: nat, ops: seq<Op>)
    requires SystemInv(s) && installed < |s.captured| && Install(s.table, s.captured[installed]).1
    requires forall i | 0 <= i < |ops| :: !ops[i].DoTeardown?
    ensures SystemInv(Step(s, DoInstall(installed)))
    ensures Capture(RunFrom(Step(s, DoInstall(installed)), ops).table).1.highWater >= s.captured[installed].highWater
  {
    hide SlotOk, SlotsDistinct, OfferHeld, StillActive, InstalledSlots, RunFrom, CapturedGenerations;
    StepKeepsInv(s, DoInstall(installed));
    FloorRises(Step(s, DoInstall(installed)), ops);
  }

  /** Capture, install and answer, with nothing in between. */
  function NegotiationRound(t: Table): (Table, bool)
    requires t.Shaped()
  {
    var (t1, m) := Capture(t);
    var (t2, installed) := Install(t1, m);
    var (t3, answered) := ApplyAnswer(t2, m);
    (t3, installed && answered)
  }

  /** An uninterrupted round always succeeds and settles the table. */
  lemma RoundSettles(t: Table)
    requires Inv(t)
    ensures var (t', ok) := NegotiationRound(t);
      && ok && Inv(t') && t'.offered.None? && !Pending(t')
      && (forall i | 0 <= i < MAX_REMOTE_SLOTS :: (t'.slots[i].state.Free? || t'.slots[i].state.Active?))
      && (forall i | 0 <= i < MAX_REMOTE_SLOTS :: t.slots[i].state.Active? ==>
            t'.slots[i] == t.slots[i] && t'.Authorized(i, t.slots[i].generation))
      && (forall i | 0 <= i < MAX_REMOTE_SLOTS :: !t.slots[i].state.Active? ==> t'.slots[i].state.Free?)
  {
    var (t1, m) := Capture(t);
    CaptureKeepsInv(t);
    InstallKeepsInv(t1, m);
    var t2 := Install(t1, m).0;
    forall i | 0 <= i < MAX_REMOTE_SLOTS
      ensures !t2.slots[i].state.Retiring?
      ensures t2.slots[i].state.Active? <==> t.slots[i].state.Active?
      ensures t2.slots[i].state.Active? ==> t2.slots[i] == t.slots[i] && m.generations[i] == t.slots[i].generation
      ensures !t2.slots[i].state.Active? ==> m.generations[i] == 0
    {
      assert SlotOk(t, i);
    }
    ApplyAnswerKeepsInv(t2, m);
    var t3 := ApplyAnswer(t2, m).0;
    forall i | 0 <= i < MAX_REMOTE_SLOTS
      ensures (t3.slots[i].state.Free? || t3.slots[i].state.Active?)
      ensures t.slots[i].state.Active? ==> t3.slots[i] == t.slots[i] && t3.Authorized(i, t.slots[i].generation)
      ensures !t.slots[i].state.Active? ==> t3.slots[i].state.Free? && t3.applied[i] == 0
    {
      assert SlotOk(t, i) && SlotOk(t2, i) && SlotOk(t3, i);
    }
  }
}

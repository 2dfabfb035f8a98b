/**
 The slot table as the session keeps it: arrays and counters changed in place.  Each
 method is proved to do exactly the step of `RemoteSlots` that it is named after.
 */
module RemoteSlotTable {
  import opened Wrappers
  import opened RemoteSlots

  class SlotTable {
    var slots: array<Slot>
    var applied: array<nat>
    var offered: Option<Manifest>
    var nextAssignment: nat
    var nextOffer: nat
    var highWater: nat
    var offeredFloor: nat

    ghost predicate Valid()
      reads this, slots, applied
    {
      slots.Length == MAX_REMOTE_SLOTS == applied.Length && View().Shaped()
    }

    ghost function View(): Table
      reads this, slots, applied
    {
      Table(slots[..], applied[..], offered, nextAssignment, nextOffer, highWater, offeredFloor)
    }

    constructor ()
      ensures Valid() && fresh(slots) && fresh(applied)
      ensures View() == ClearedTable(0, 0)
    {
      slots := new Slot[MAX_REMOTE_SLOTS](_ => FREE_SLOT);
      applied := new nat[MAX_REMOTE_SLOTS](_ => 0);
      offered := None;
      nextAssignment, nextOffer, highWater, offeredFloor := 0, 0, 0, 0;
      new;
      assert slots[..] == ClearedTable(0, 0).slots;
      assert applied[..] == ClearedTable(0, 0).applied;
    }

    method ReserveSlot(userId: int, peerId: nat) returns (r: Option<(nat, nat)>)
      requires Valid()
      modifies this`nextAssignment, this`highWater, slots
      ensures Valid()
      ensures (View(), r) == Reserve(old(View()), userId, peerId)
    {
      if peerId == 0 { return None; }
      ghost var was := slots[..];
      var free := MAX_REMOTE_SLOTS;
      for i := 0 to MAX_REMOTE_SLOTS
        invariant FirstActiveFor(was, userId, peerId, 0) == FirstActiveFor(was, userId, peerId, i)
        invariant free <= MAX_REMOTE_SLOTS
        invariant FirstFree(was, 0) == if free < MAX_REMOTE_SLOTS then free else FirstFree(was, i)
      {
        var candidate := slots[i];
        if candidate.state.Active? && candidate.peerId == peerId && candidate.userId == userId {
          return Some((i, candidate.generation));
        }
        if free == MAX_REMOTE_SLOTS && candidate.state.Free? { free := i; }
      }
      if free == MAX_REMOTE_SLOTS { return None; }
      nextAssignment := nextAssignment + 1;
      slots[free] := Slot(Active, nextAssignment, userId, peerId);
      if free >= highWater { highWater := free + 1; }
      r := Some((free, nextAssignment));
    }

    method RetireSlot(slot: nat, generation: nat) returns (matched: bool)
      requires Valid()
      modifies this`highWater, slots
      ensures Valid()
      ensures (View(), matched) == Retire(old(View()), slot, generation)
    {
      if slot >= MAX_REMOTE_SLOTS || generation == 0 { return false; }
      matched := slots[slot].state.Active? && slots[slot].generation == generation;
      if matched {
        if offered.Some? && offered.value.generations[slot] == generation {
          slots[slot] := slots[slot].(state := RetiringOffered);
        } else if applied[slot] == generation {
          slots[slot] := slots[slot].(state := Retiring);
        } else {
          slots[slot] := FREE_SLOT;
          ghost var freed := View();
          while highWater > 0
            invariant highWater <= freed.highWater
            invariant View() == freed.(highWater := highWater)
            invariant TrimOnRetire(freed, freed.highWater) == TrimOnRetire(freed, highWater)
            decreases highWater
          {
            var last := highWater - 1;
            if !slots[last].state.Free? { break; }
            if applied[last] != 0 { break; }
            if offered.Some? && last < offered.value.highWater && offered.value.generations[last] != 0 { break; }
            if offeredFloor > last { break; }
            highWater := last;
          }
        }
      }
    }

    method CaptureOffer() returns (m: Manifest)
      requires Valid()
      modifies this`nextOffer
      ensures Valid()
      ensures (View(), m) == Capture(old(View()))
    {
      nextOffer := nextOffer + 1;
      var mark := if highWater > offeredFloor then highWater else offeredFloor;
      var generations: seq<nat> := [];
      for i := 0 to MAX_REMOTE_SLOTS
        invariant generations == CapturedGenerations(old(View()), mark)[..i]
      {
        generations := generations + [if i < mark && slots[i].state.Active? then slots[i].generation else 0];
      }
      assert generations == CapturedGenerations(old(View()), mark);
      m := Manifest(nextOffer, mark, generations);
    }

    method InstallOffer(m: Manifest) returns (installed: bool)
      requires Valid() && m.WellFormed()
      modifies this`offered, this`offeredFloor, slots
      ensures Valid()
      ensures (View(), installed) == Install(old(View()), m)
    {
      if offered.Some? && offered.value.offerGeneration >= m.offerGeneration { return false; }
      for i := 0 to m.highWater
        invariant forall j | 0 <= j < i && m.generations[j] != 0 ::
          slots[j].state.Active? && slots[j].generation == m.generations[j]
      {
        var offer := m.generations[i];
        if offer != 0 && (!slots[i].state.Active? || slots[i].generation != offer) { return false; }
      }
      MarkRetiringOffered(m);
      offered := Some(m);
      if m.highWater > offeredFloor { offeredFloor := m.highWater; }
      installed := true;
    }

    method MarkRetiringOffered(m: Manifest)
      requires Valid() && m.WellFormed()
      modifies slots
      ensures slots[..] == InstalledSlots(old(View()), m)
    {
      ghost var was := View();
      for i := 0 to highWater
        invariant forall j | 0 <= j < i :: slots[j] == InstalledSlot(was, m, j)
        invariant forall j | i <= j < MAX_REMOTE_SLOTS :: slots[j] == was.slots[j]
      {
        if slots[i].state.Retiring? && (i >= m.highWater || m.generations[i] == 0) {
          slots[i] := slots[i].(state := RetiringOffered);
        }
      }
    }

    method AnswerOffer(m: Manifest) returns (answered: bool)
      requires Valid() && m.WellFormed()
      modifies this`offered, this`highWater, slots, applied
      ensures Valid()
      ensures (View(), answered) == ApplyAnswer(old(View()), m)
    {
      if offered != Some(m) { return false; }
      for i := 0 to m.highWater
        invariant forall j | 0 <= j < i && m.generations[j] != 0 :: slots[j].generation == m.generations[j]
      {
        if m.generations[i] != 0 && slots[i].generation != m.generations[i] { return false; }
      }
      ghost var was := View();
      LoadAnswer(m);
      ghost var loaded := was.(slots := AnsweredSlots(was, m), applied := AnsweredGenerations(was, m));
      assert View() == loaded;
      while highWater > 0
        invariant highWater <= loaded.highWater
        invariant View() == loaded.(highWater := highWater)
        invariant TrimOnAnswer(loaded, loaded.highWater) == TrimOnAnswer(loaded, highWater)
        decreases highWater
      {
        var last := highWater - 1;
        if !slots[last].state.Free? { break; }
        if applied[last] != 0 { break; }
        highWater := last;
      }
      offered := None;
      answered := true;
    }

    method LoadAnswer(m: Manifest)
      requires Valid() && m.WellFormed()
      modifies slots, applied
      ensures slots[..] == AnsweredSlots(old(View()), m)
      ensures applied[..] == AnsweredGenerations(old(View()), m)
    {
      ghost var was := View();
      for i := 0 to highWater
        invariant forall j | 0 <= j < i :: slots[j] == AnsweredSlot(was.slots[j], m.generations[j])
        invariant forall j | i <= j < MAX_REMOTE_SLOTS :: slots[j] == was.slots[j]
        invariant forall j | 0 <= j < i :: applied[j] == m.generations[j]
        invariant forall j | i <= j < MAX_REMOTE_SLOTS :: applied[j] == was.applied[j]
      {
        var offer := if i < m.highWater then m.generations[i] else 0;
        applied[i] := offer;
        if offer == 0 && (slots[i].state.Retiring? || slots[i].state.RetiringOffered?) {
          slots[i] := FREE_SLOT;
        } else if offer != 0 && (slots[i].state.Retiring? || slots[i].state.RetiringOffered?) {
          slots[i] := slots[i].(state := Retiring);
        }
      }
    }

    method TeardownSlots()
      requires Valid()
      modifies this`offered, this`highWater, this`offeredFloor, slots, applied
      ensures Valid()
      ensures View() == Teardown(old(View()))
    {
      offered := None;
      for i := 0 to MAX_REMOTE_SLOTS
        invariant offered == None
        invariant forall j | 0 <= j < i :: slots[j] == FREE_SLOT && applied[j] == 0
      {
        slots[i] := FREE_SLOT;
        applied[i] := 0;
      }
      highWater, offeredFloor := 0, 0;
      assert slots[..] == ClearedTable(nextAssignment, nextOffer).slots;
      assert applied[..] == ClearedTable(nextAssignment, nextOffer).applied;
    }

    /** Counts both kinds of unsettled slots; something is pending unless both are zero. */
    method PendingSlots() returns (pending: bool, activeUnapplied: nat, obsoleteApplied: nat)
      requires Valid()
      ensures pending == Pending(View())
      ensures activeUnapplied == CountPending(View(), highWater, true)
      ensures obsoleteApplied == CountPending(View(), highWater, false)
    {
      activeUnapplied, obsoleteApplied := 0, 0;
      ghost var t := View();
      for i := 0 to highWater
        invariant activeUnapplied == CountPending(t, i, true)
        invariant obsoleteApplied == CountPending(t, i, false)
      {
        if slots[i].state.Active? {
          if applied[i] != slots[i].generation { activeUnapplied := activeUnapplied + 1; }
        } else if applied[i] != 0 {
          obsoleteApplied := obsoleteApplied + 1;
        }
      }
      pending := activeUnapplied != 0 || obsoleteApplied != 0;
      CountsShowPending(t, highWater);
    }
  }

  /** Unsettled slots under `mark` that are active, or that are not. */
  ghost function CountPending(t: Table, mark: nat, active: bool): nat
    requires t.Shaped() && mark <= MAX_REMOTE_SLOTS
  {
    if mark == 0 then 0
    else CountPending(t, mark - 1, active) +
         (if SlotPending(t, mark - 1) && t.slots[mark - 1].state.Active? == active then 1 else 0)
  }

  lemma {:induction false} CountsShowPending(t: Table, mark: nat)
    requires t.Shaped() && mark <= MAX_REMOTE_SLOTS
    ensures CountPending(t, mark, true) + CountPending(t, mark, false) > 0
        <==> exists i :: 0 <= i < mark && SlotPending(t, i)
  {
    if mark > 0 { CountsShowPending(t, mark - 1); }
  }
}

/**
 Slots without an entry (src/room/room_media_graph.c).  An active slot of a subscriber is meant to
 carry an entry.  A refresh reserves slots in one loop over the room and adds entries in a second
 one; a session that stops accepting work in between keeps its slot without an entry, and a later
 leave retires only slots that carry one.  Nothing else leaves such a slot behind.
 */
module RoomOrphans {
  import opened Wrappers
  import opened RemoteSlots
  import opened MediaGraph
  import opened RoomOperations
  import opened RoomDepartures
  import opened RoomRefresh
  import opened RoomRuns

  /** Slot `k` of session `s` is active and carries no entry. */
  ghost predicate Orphan(g: Graph, s: PeerId, k: int) {
    && s in g.tables && s in g.receivers && 0 <= k < |g.tables[s].table.slots|
    && g.tables[s].table.slots[k].state.Active? && k !in g.receivers[s]
  }

  ghost predicate NoOrphans(g: Graph) { forall s, k :: !Orphan(g, s, k) }

  /** Every orphan is one of the reservations. */
  ghost predicate OnlyHeld(g: Graph, held: seq<Reservation>) {
    forall s, k | Orphan(g, s, k) :: Reservation(s, k, g.tables[s].table.slots[k].generation) in held
  }

  // -------------------------------------------------------------------- reservations

  lemma ReserveForOrphans(g: Graph, owner: PeerId, p: PeerId, held: seq<Reservation>)
    requires EdgesInv(g) && owner in g.peers && p in g.peers && OnlyHeld(g, held)
    ensures var (g', r) := ReserveFor(g, owner, p);
      OnlyHeld(g', if r.Some? then held + [Reservation(owner, r.value.0, r.value.1)] else held)
  {
    assert SystemInv(g.tables[owner]);
    var t := g.tables[owner].table;
    ReserveKeepsInv(t, g.peers[p].userId, p);
    hide Reserve, EdgesInv, SystemInv;
    var (g', r) := ReserveFor(g, owner, p);
    var more := if r.Some? then held + [Reservation(owner, r.value.0, r.value.1)] else held;
    forall s, k | Orphan(g', s, k) ensures Reservation(s, k, g'.tables[s].table.slots[k].generation) in more {
      if s != owner || r.None? || k != r.value.0 { assert Orphan(g, s, k); }
    }
  }

  lemma RetireForOrphans(g: Graph, h: Reservation, held: seq<Reservation>)
    requires EdgesInv(g) && h.owner in g.peers && OnlyHeld(g, held + [h])
    ensures OnlyHeld(RetireFor(g, h).0, held)
  {
    assert SystemInv(g.tables[h.owner]);
    RetireKeepsInv(g.tables[h.owner].table, h.slot, h.generation);
    hide Retire, EdgesInv, SystemInv;
    var g' := RetireFor(g, h).0;
    forall s, k | Orphan(g', s, k) ensures Reservation(s, k, g'.tables[s].table.slots[k].generation) in held {
      if s == h.owner && k == h.slot { assert !RetireFor(g, h).1; }
      assert Orphan(g, s, k);
    }
  }

  /** A rollback leaves no orphan behind. */
  lemma {:induction false} RollbackOrphans(g: Graph, held: seq<Reservation>)
    requires EdgesInv(g) && AllUnused(g, held) && OnlyHeld(g, held)
    ensures Ready(g) && NoOrphans(Rollback(g, held))
    decreases |held|
  {
    hide Orphan;
    if held != [] {
      var h, rest := held[|held| - 1], held[..|held| - 1];
      assert held == rest + [h];
      RetireForKeeps(g, h);
      RetireForOrphans(g, h, rest);
      RollbackOrphans(RetireFor(g, h).0, rest);
    }
  }

  /** A session that hears a publisher does so at the slot assigned to it. */
  lemma HeardIsNoOrphan(g: Graph, s: PeerId, p: PeerId, k: int, n: int)
    requires EdgesInv(g) && s in g.peers && p in g.peers && Hears(g, s, p)
    requires Assigned(g.tables, s, p, g.peers[p].userId, k, n)
    ensures !Orphan(g, s, k)
  {
    hide Dual, BundleOk;
    assert SystemInv(g.tables[s]);
    var i := ScanEntry(g.receivers[s], p, 0);
    assert EntryOk(g.peers, g.tables, s, i, g.receivers[s][i]);
  }

  /** Entries are only added. */
  ghost predicate Grows(g: Graph, g': Graph) {
    && g'.tables == g.tables && g'.receivers.Keys == g.receivers.Keys
    && forall q | q in g.receivers :: g.receivers[q].Keys <= g'.receivers[q].Keys
  }

  lemma GrownOrphan(g: Graph, g': Graph, s: PeerId, k: int)
    requires Grows(g, g') && Orphan(g', s, k)
    ensures Orphan(g, s, k)
  {
  }

  // ------------------------------------------------------------------------- joining

  /** Every orphan is reserved for one of the targets or for the joiner. */
  ghost predicate OnlyPairs(g: Graph, x: PeerId, targets: seq<PeerId>, pairs: seq<Pair>)
    requires |pairs| <= |targets|
  {
    forall s, k | Orphan(g, s, k) :: exists i :: 0 <= i < |pairs| && InPair(x, targets[i], pairs[i], s, k)
  }

  predicate InPair(x: PeerId, t: PeerId, pair: Pair, s: PeerId, k: int) {
    (s == x && k == pair.atPeer.slot) || (s == t && pair.atTarget.Some? && k == pair.atTarget.value.slot)
  }

  lemma ReservePairOrphans(g: Graph, x: PeerId, t: PeerId, held: seq<Reservation>)
    requires EdgesInv(g) && x in g.peers && t in g.peers && x != t && Strangers(g, x, t) && OnlyHeld(g, held)
    ensures Ready(g)
    ensures var r := ReservePair(g, x, t, held);
      && OnlyHeld(r.graph, r.held)
      && (r.ok ==> forall s, k | Orphan(r.graph, s, k) :: Orphan(g, s, k) || InPair(x, t, r.pairs[0], s, k))
  {
    hide EdgesInv;
    EdgesReady(g);
    if g.peers[x].audience {
      ReserveForOrphans(g, x, t, held);
      ReserveForAdds(g, x, t);
    } else {
      ReserveForKeeps(g, t, x);
      ReserveForOrphans(g, t, x, held);
      ReserveForAdds(g, t, x);
      var (g1, theirs) := ReserveFor(g, t, x);
      if theirs.Some? {
        var h := Reservation(t, theirs.value.0, theirs.value.1);
        ReserveForOrphans(g1, x, t, held + [h]);
        ReserveForAdds(g1, x, t);
        var mine := ReserveFor(g1, x, t).1;
        if mine.Some? {
          var h' := Reservation(x, mine.value.0, mine.value.1);
          assert held + [h] + [h'] == held + [h, h'];
        }
      }
    }
  }

  /** A reservation adds no orphan but its own slot. */
  lemma ReserveForAdds(g: Graph, owner: PeerId, p: PeerId)
    requires EdgesInv(g) && owner in g.peers && p in g.peers
    ensures var (g', r) := ReserveFor(g, owner, p);
      forall s, k | Orphan(g', s, k) :: Orphan(g, s, k) || (r.Some? && s == owner && k == r.value.0)
  {
    assert SystemInv(g.tables[owner]);
    ReserveKeepsInv(g.tables[owner].table, g.peers[p].userId, p);
    hide Reserve, EdgesInv, SystemInv;
  }

  lemma {:induction false} ReserveTargetsOrphans(g: Graph, x: PeerId, targets: seq<PeerId>, held: seq<Reservation>,
                                                 pairs: seq<Pair>)
    requires EdgesInv(g) && x in g.peers && AllStrangers(g, x, targets)
    requires AllUnused(g, held) && |pairs| <= |targets|
    requires OnlyHeld(g, held) && OnlyPairs(g, x, targets, pairs)
    ensures Ready(g)
    ensures var r := ReserveTargets(g, x, targets, held, pairs);
      OnlyHeld(r.graph, r.held) && (r.ok ==> |r.pairs| == |targets| && OnlyPairs(r.graph, x, targets, r.pairs))
    decreases |targets| - |pairs|
  {
    hide EdgesInv, ReservePair, Orphan, OnlyHeld, InPair, Strangers;
    EdgesReady(g);
    if |pairs| < |targets| {
      var t := targets[|pairs|];
      var one := ReservePair(g, x, t, held);
      ReservePairKeeps(g, x, t, held);
      ReservePairOrphans(g, x, t, held);
      if one.ok {
        var more := pairs + one.pairs;
        forall s, k | Orphan(one.graph, s, k)
          ensures exists i :: 0 <= i < |more| && InPair(x, targets[i], more[i], s, k)
        {
          if Orphan(g, s, k) {
            var i :| 0 <= i < |pairs| && InPair(x, targets[i], pairs[i], s, k);
            assert more[i] == pairs[i];
          } else {
            assert more[|pairs|] == one.pairs[0];
          }
        }
        StillStrangers(g, one.graph, x, targets);
        ReserveTargetsOrphans(one.graph, x, targets, one.held, more);
      }
    }
  }

  lemma StillStrangers(g: Graph, g': Graph, x: PeerId, targets: seq<PeerId>)
    requires AllStrangers(g, x, targets) && g'.peers == g.peers && g'.receivers == g.receivers
    ensures AllStrangers(g', x, targets)
  {
    forall i | 0 <= i < |targets| ensures Strangers(g', x, targets[i]) { assert Strangers(g, x, targets[i]); }
  }

  lemma {:induction false} AttachTargetsGrows(g: Graph, x: PeerId, targets: seq<PeerId>, pairs: seq<Pair>, i: nat)
    requires g.Keyed() && x in g.peers && i <= |targets| == |pairs|
    requires forall j | 0 <= j < |targets| :: targets[j] in g.peers
    requires AttachTargets(g, x, targets, pairs, i).Some?
    ensures Grows(g, AttachTargets(g, x, targets, pairs, i).value)
    decreases |targets| - i
  {
    if i < |targets| {
      AttachPairGrows(g, x, targets[i], pairs[i]);
      hide AttachPair;
      AttachTargetsGrows(AttachPair(g, x, targets[i], pairs[i]).value, x, targets, pairs, i + 1);
    }
  }

  lemma AttachPairGrows(g: Graph, x: PeerId, t: PeerId, pair: Pair)
    requires g.Keyed() && x in g.peers && t in g.peers && AttachPair(g, x, t, pair).Some?
    ensures Grows(g, AttachPair(g, x, t, pair).value)
  {
    hide ScanEntry, ScanRoute, FirstOpen, RouteIndex;
  }

  lemma JoinOrphans(g: Graph, r: RoomId, x: PeerId, accepting: set<PeerId>, abort: bool)
    requires GraphInv(g) && NoOrphans(g) && r in g.rooms && x in g.peers && RoomOk(g.peers, r, g.rooms[r])
    ensures NoOrphans(Join(g, r, x, accepting, abort).0)
  {
    hide EdgesInv, RoomsInv, RoomOk, ReserveTargets, Rollback, AttachTargets, Others, Seat, Orphan;
    EdgesReady(g);
    if g.peers[x].room.None? && x in accepting && g.rooms[r].free != [] {
      var targets := Others(g.rooms[r].seats, x, accepting, 0);
      TargetsOfJoin(g, r, x, accepting, targets);
      ReserveTargetsKeeps(g, x, targets, [], []);
      ReserveTargetsOrphans(g, x, targets, [], []);
      var reserved := ReserveTargets(g, x, targets, [], []);
      if !reserved.ok || abort {
        RollbackOrphans(reserved.graph, reserved.held);
      } else {
        SeatKeeps(reserved.graph, r, x);
        JoinCommits(reserved.graph, r, x, targets, reserved.pairs);
        JoinedOrphans(reserved.graph, r, x, targets, reserved.pairs);
      }
    }
  }

  lemma JoinedOrphans(g: Graph, r: RoomId, x: PeerId, targets: seq<PeerId>, pairs: seq<Pair>)
    requires GraphInv(g) && x in g.peers && r in g.rooms && g.rooms[r].free != [] && g.peers[x].room.None?
    requires AllStrangers(g, x, targets) && |pairs| == |targets| && PairsOk(g, x, targets, pairs)
    requires forall i | 0 <= i < |targets| :: g.peers[targets[i]].room == Some(r)
    requires forall i, j | 0 <= i < j < |targets| :: targets[i] != targets[j]
    requires OnlyPairs(g, x, targets, pairs)
    ensures Seat(g, r, x).Keyed() && Seat(g, r, x).peers.Keys == g.peers.Keys
    ensures var joined := AttachTargets(Seat(g, r, x), x, targets, pairs, 0); joined.Some? && NoOrphans(joined.value)
  {
    hide EdgesInv, RoomsInv, AttachTargets, Seat, Orphan;
    SeatKeeps(g, r, x);
    JoinCommits(g, r, x, targets, pairs);
    var g0 := Seat(g, r, x);
    var joined := AttachTargets(g0, x, targets, pairs, 0).value;
    AttachTargetsGrows(g0, x, targets, pairs, 0);
    forall s, k ensures !Orphan(joined, s, k) {
      if Orphan(joined, s, k) {
        GrownOrphan(g, joined, s, k);
        var i :| 0 <= i < |pairs| && InPair(x, targets[i], pairs[i], s, k);
        assert PairOk(g, x, targets[i], pairs[i]) && targets[i] in targets;
        if s == x && k == pairs[i].atPeer.slot {
          HeardIsNoOrphan(joined, x, targets[i], k, pairs[i].atPeer.generation);
        } else {
          HeardIsNoOrphan(joined, targets[i], x, k, pairs[i].atTarget.value.generation);
        }
      }
    }
  }

  // ------------------------------------------------------------------------- leaving

  lemma {:induction false} RetireAllActive(t: Table, receivers: Receivers, from: nat, k: nat)
    requires RemoteSlots.Inv(t) && from <= MAX_REMOTE_SLOTS && k < MAX_REMOTE_SLOTS
    requires forall k | k in receivers && k >= from ::
      && receivers[k].remoteSlot == k < MAX_REMOTE_SLOTS && t.slots[k].state.Active?
      && t.slots[k].generation == receivers[k].generation
    ensures var t' := RetireAll(t, receivers, from);
      t'.slots[k].state.Active? ==> t.slots[k].state.Active? && !(from <= k && k in receivers)
    decreases MAX_REMOTE_SLOTS - from
  {
    hide Retire;
    if from < MAX_REMOTE_SLOTS {
      if from in receivers {
        RetireKeepsInv(t, from, receivers[from].generation);
        RetireAllActive(RetireEntry(t, receivers[from]).0, receivers, from + 1, k);
      } else {
        RetireAllActive(t, receivers, from + 1, k);
      }
    }
  }

  lemma LeaverOrphans(g: Graph, x: PeerId, k: nat)
    requires EdgesInv(g) && NoOrphans(g) && x in g.peers && k < MAX_REMOTE_SLOTS
    ensures !RetireAll(g.tables[x].table, g.receivers[x], 0).slots[k].state.Active?
  {
    hide RetireAll, Dual, BundleOk;
    assert SystemInv(g.tables[x]) && !Orphan(g, x, k);
    forall i | i in g.receivers[x] ensures EntryOk(g.peers, g.tables, x, i, g.receivers[x][i]) {}
    RetireAllActive(g.tables[x].table, g.receivers[x], 0, k);
  }

  lemma ForgetOrphans(g: Graph, q: PeerId, x: PeerId, k: nat)
    requires EdgesInv(g) && NoOrphans(g) && q in g.peers && k < MAX_REMOTE_SLOTS
    ensures ForgetPublisher(g.tables[q].table, g.receivers[q], x).slots[k].state.Active? ==>
      k in WithoutEntry(g.receivers[q], x)
  {
    hide Dual, BundleOk, Retire;
    assert SystemInv(g.tables[q]) && !Orphan(g, q, k);
    ForgetKeeps(g, q, x);
    var i := ScanEntry(g.receivers[q], x, 0);
    if i < MAX_REMOTE_SLOTS {
      assert EntryOk(g.peers, g.tables, q, i, g.receivers[q][i]);
      RetireKeepsInv(g.tables[q].table, i, g.receivers[q][i].generation);
    }
  }

  lemma LeaveOrphans(g: Graph, r: RoomId, x: PeerId)
    requires GraphInv(g) && NoOrphans(g) && r in g.rooms && x in g.peers
    ensures Ready(g) && NoOrphans(Leave(g, r, x))
  {
    hide EdgesInv, RoomsInv, Leave, RetireAll, ForgetPublisher, WithoutEntry, WithoutRoute;
    EdgesReady(g);
    if g.peers[x].room == Some(r) {
      LeaveIsLeftBy(g, r, x);
      var g' := Leave(g, r, x);
      forall s, k ensures !Orphan(g', s, k) {
        assert !Orphan(g, s, k);
        if s in g.peers && 0 <= k < MAX_REMOTE_SLOTS {
          LeaverOrphans(g, x, k);
          ForgetOrphans(g, s, x, k);
          if s != x { assert Forgot(g, g', x, s, Roommate(g, x, s)); }
        }
      }
    } else {
      NotThere(g, r, x);
    }
  }

  lemma NotThere(g: Graph, r: RoomId, x: PeerId)
    requires Ready(g) && r in g.rooms && x in g.peers && RoomsInv(g.peers, g.rooms) && g.peers[x].room != Some(r)
    ensures Leave(g, r, x) == g
  {
  }

  // ---------------------------------------------------------------------- refreshing

  lemma {:induction false} LazyReserveOrphans(g: Graph, x: PeerId, others: seq<PeerId>, i: nat, held: seq<Reservation>)
    requires EdgesInv(g) && x in g.peers && i <= |others| && forall j | 0 <= j < |others| :: others[j] in g.peers
    requires AllHeldFor(g, held, x) && OnlyHeld(g, held)
    ensures var r := LazyReserve(g, x, others, i, held);
      && OnlyHeld(r.graph, r.held)
      && forall h | h in r.held :: h in held || (h.owner in others && h.owner in g.peers && !Hears(g, h.owner, x))
    decreases |others| - i
  {
    hide EdgesInv, ReserveFor, OnlyHeld, HeldFor, ScanEntry;
    EdgesReady(g);
    if i < |others| {
      var o := others[i];
      if Hears(g, o, x) {
        LazyReserveOrphans(g, x, others, i + 1, held);
      } else {
        NotHeard(g, o, x);
        ReserveForKeeps(g, o, x);
        ReserveForOrphans(g, o, x, held);
        var (g1, slot) := ReserveFor(g, o, x);
        StillHeld(g, g1, x, held);
        if slot.Some? {
          var h := Reservation(o, slot.value.0, slot.value.1);
          assert HeldFor(g1, h, o, x) by { IsHeldFor(g1, h, o, x); }
          LazyReserveOrphans(g1, x, others, i + 1, held + [h]);
        }
      }
    }
  }

  lemma IsHeldFor(g: Graph, h: Reservation, owner: PeerId, p: PeerId)
    requires h.owner == owner && owner in g.receivers && p in g.peers && h.slot !in g.receivers[owner]
    requires Assigned(g.tables, owner, p, g.peers[p].userId, h.slot, h.generation)
    ensures HeldFor(g, h, owner, p)
  {
  }

  lemma NotHeard(g: Graph, o: PeerId, x: PeerId)
    requires EdgesInv(g) && o in g.peers && !Hears(g, o, x)
    ensures NoEntry(g.receivers[o], x)
  {
    forall k | k in g.receivers[o] ensures g.receivers[o][k].publisher != x {
      assert EntryOk(g.peers, g.tables, o, k, g.receivers[o][k]);
    }
  }

  lemma StillHeld(g: Graph, g': Graph, x: PeerId, held: seq<Reservation>)
    requires AllHeldFor(g, held, x) && g' == g.(tables := g'.tables)
    requires forall s, q, u, k, n | Assigned(g.tables, s, q, u, k, n) :: Assigned(g'.tables, s, q, u, k, n)
    ensures AllHeldFor(g', held, x)
  {
    hide Assigned;
    forall h | h in held ensures HeldFor(g', h, h.owner, x) { assert HeldFor(g, h, h.owner, x); }
  }

  lemma {:induction false} RefreshAllGrows(g: Graph, x: PeerId, others: seq<PeerId>, held: seq<Reservation>,
                                           publish: bool, i: nat)
    requires g.Keyed() && x in g.peers && i <= |others| && forall j | 0 <= j < |others| :: others[j] in g.peers
    ensures Grows(g, RefreshAll(g, x, others, held, publish, i))
    decreases |others| - i
  {
    if i < |others| {
      RefreshOneGrows(g, x, others[i], held, publish);
      hide RefreshOne;
      RefreshAllGrows(RefreshOne(g, x, others[i], held, publish), x, others, held, publish, i + 1);
    }
  }

  lemma RefreshOneGrows(g: Graph, x: PeerId, o: PeerId, held: seq<Reservation>, publish: bool)
    requires g.Keyed() && x in g.peers && o in g.peers
    ensures Grows(g, RefreshOne(g, x, o, held, publish))
  {
    hide ScanRoute, FirstOpen, RouteIndex, FindHeld;
  }

  /** Everyone a slot is to be reserved for in the first loop is visited in the second one. */
  ghost predicate NoneLost(g: Graph, x: PeerId, publish: bool, accepting: set<PeerId>, later: set<PeerId>)
    requires GraphInv(g) && InRoom(g, x)
  {
    publish ==>
      forall o | o in g.receivers && o in Listeners(g, x, accepting) && !Hears(g, o, x) :: o in later
  }

  lemma ListenersAccept(g: Graph, x: PeerId, accepting: set<PeerId>)
    requires GraphInv(g) && InRoom(g, x)
    ensures forall o | o in Listeners(g, x, accepting) :: o in accepting
  {
    var r := g.peers[x].room.value;
    assert RoomOk(g.peers, r, g.rooms[r]);
    OthersSeated(g.peers, r, g.rooms[r], x, accepting, 0);
  }

  lemma LazyPhaseOrphans(g: Graph, x: PeerId, publish: bool, accepting: set<PeerId>)
    requires GraphInv(g) && NoOrphans(g) && InRoom(g, x)
    ensures var r := LazyPhase(g, x, publish, accepting); var others := Listeners(g, x, accepting);
      && OnlyHeld(r.graph, r.held) && NoOrphans(Rollback(r.graph, r.held))
      && (forall h | h in r.held :: publish && h.owner in others && h.owner in g.receivers && !Hears(g, h.owner, x))
      && (publish && r.ok ==>
            forall o | o in others && o in g.receivers && !Hears(g, o, x) :: FindHeld(r.held, o).Some?)
  {
    hide EdgesInv, RoomsInv, LazyReserve, FindHeld, Orphan, ScanEntry;
    EdgesReady(g);
    ListenersAreRoommates(g, x, accepting);
    var others := if publish then Listeners(g, x, accepting) else [];
    LazyReserveKeeps(g, x, others, 0, []);
    LazyReserveOrphans(g, x, others, 0, []);
    var r := LazyPhase(g, x, publish, accepting);
    HeldIsUnused(r.graph, r.held, x);
    RollbackOrphans(r.graph, r.held);
    if r.ok {
      forall o | o in others && !Hears(g, o, x) ensures FindHeld(r.held, o).Some? {
        var j :| 0 <= j < |others| && others[j] == o;
        LazyReserveCovers(g, x, others, 0, [], j);
      }
    }
  }

  /** The session before the second loop, with the publisher's new role or media. */
  ghost predicate Between(g: Graph, g1: Graph, x: PeerId) {
    && GraphInv(g1) && InRoom(g1, x) && g1.rooms == g.rooms && g1.receivers == g.receivers && x in g.peers
    && g1.peers == g.peers[x := g1.peers[x]] && SameSeat(g.peers[x], g1.peers[x])
  }

  lemma ReachedHaveNone(g: Graph, g1: Graph, x: PeerId, held: seq<Reservation>, publish: bool, accepting: set<PeerId>,
                        later: set<PeerId>)
    requires GraphInv(g) && InRoom(g, x) && Between(g, g1, x) && OnlyHeld(g1, held) && AllHeldFor(g1, held, x)
    requires forall h | h in held ::
      publish && h.owner in Listeners(g, x, accepting) && h.owner in g.receivers && !Hears(g, h.owner, x)
    requires NoneLost(g, x, publish, accepting, later)
    ensures NoOrphans(Visit(g1, x, held, publish, later))
  {
    hide EdgesInv, RoomsInv, RefreshAll, FindHeld, Orphan, ScanEntry, Others;
    ListenersAreRoommates(g, x, accepting);
    ListenersAreRoommates(g1, x, later);
    VisitKeeps(g1, x, held, publish, later);
    var others, g2 := Listeners(g1, x, later), Visit(g1, x, held, publish, later);
    EdgesReady(g1);
    RefreshAllGrows(g1, x, others, held, publish, 0);
    forall s, k ensures !Orphan(g2, s, k) {
      if Orphan(g2, s, k) {
        GrownOrphan(g1, g2, s, k);
        var h := HeldOrphan(g1, held, s, k);
        assert s in others;
        var j :| 0 <= j < |others| && others[j] == s;
        RefreshAllHears(g1, x, others, held, publish, 0, j);
        var i :| 0 <= i < |held| && held[i] == h;
        FindHeldFinds(held, i);
        assert HeldFor(g1, h, s, x);
        HeardIsNoOrphan(g2, s, x, k, h.generation);
      }
    }
  }

  lemma HeldOrphan(g: Graph, held: seq<Reservation>, s: PeerId, k: int) returns (h: Reservation)
    requires Orphan(g, s, k) && OnlyHeld(g, held)
    ensures h in held && h.owner == s && h.slot == k
  {
    h := Reservation(s, k, g.tables[s].table.slots[k].generation);
  }

  lemma LostHasOne(g: Graph, g1: Graph, x: PeerId, held: seq<Reservation>, publish: bool, accepting: set<PeerId>,
                   later: set<PeerId>)
    requires GraphInv(g) && InRoom(g, x) && Between(g, g1, x) && AllHeldFor(g1, held, x)
    requires publish ==>
      forall o | o in Listeners(g, x, accepting) && o in g.receivers && !Hears(g, o, x) :: FindHeld(held, o).Some?
    requires !NoneLost(g, x, publish, accepting, later)
    ensures !NoOrphans(Visit(g1, x, held, publish, later))
  {
    hide EdgesInv, RoomsInv, RefreshAll, FindHeld, ScanEntry, Others;
    var o :| o in g.receivers && o in Listeners(g, x, accepting) && !Hears(g, o, x) && o !in later;
    var h := FindHeld(held, o).value;
    assert HeldFor(g1, h, o, x);
    EdgesReady(g1);
    ListenersAreRoommates(g1, x, later);
    ListenersAccept(g1, x, later);
    RefreshAllFrame(g1, x, Listeners(g1, x, later), held, publish, 0, o);
    assert Orphan(Visit(g1, x, held, publish, later), o, h.slot);
  }

  lemma VisitOrphans(g: Graph, x: PeerId, peer: Peer, publish: bool, accepting: set<PeerId>, later: set<PeerId>)
    requires GraphInv(g) && NoOrphans(g) && InRoom(g, x) && SameSeat(g.peers[x], peer)
    requires LazyPhase(g, x, publish, accepting).ok
    ensures var r := LazyPhase(g, x, publish, accepting); var g1 := WithPeer(r.graph, x, peer);
      && GraphInv(g1) && InRoom(g1, x)
      && (NoOrphans(Visit(g1, x, r.held, publish, later)) <==> NoneLost(g, x, publish, accepting, later))
  {
    hide GraphInv, LazyPhase, Visit, FindHeld, ScanEntry, NoneLost, Orphan;
    var r := LazyPhase(g, x, publish, accepting);
    var g1 := WithPeer(r.graph, x, peer);
    LazyPhaseKeeps(g, x, publish, accepting);
    LazyPhaseOrphans(g, x, publish, accepting);
    PeerMayChange(r.graph, x, peer);
    HeldSurvives(r.graph, x, peer, r.held);
    SameOrphans(r.graph, g1);
    if NoneLost(g, x, publish, accepting, later) {
      ReachedHaveNone(g, g1, x, r.held, publish, accepting, later);
    } else {
      LostHasOne(g, g1, x, r.held, publish, accepting, later);
    }
  }

  lemma SameOrphans(g: Graph, g': Graph)
    requires g'.tables == g.tables && g'.receivers == g.receivers
    ensures forall s, k :: Orphan(g', s, k) <==> Orphan(g, s, k)
  {
  }

  // -------------------------------------------------------------------- whole steps

  /** Whether the second loop of the operation runs, and for whom it may add entries. */
  ghost predicate SteadyRefresh(g: Graph, x: PeerId, publish: bool, accepting: set<PeerId>, later: set<PeerId>)
    requires GraphInv(g) && InRoom(g, x)
  {
    LazyPhase(g, x, publish, accepting).ok ==> NoneLost(g, x, publish, accepting, later)
  }

  /** No session stops accepting work between the loops of the operation while a slot is reserved
      for it that carries no entry yet. */
  ghost predicate Steady(g: Graph, op: RoomRuns.Op)
    requires GraphInv(g)
  {
    match op
    case OpRole(r, x, toAudience, _, _, a, b) =>
      InRoom(g, x) && g.peers[x].room == Some(r) && g.peers[x].audience != toAudience ==>
        SteadyRefresh(g, x, !toAudience, a, b)
    case OpPushToTalk(r, x, active, a, b) =>
      if !InRoom(g, x) || g.peers[x].room != Some(r) || !g.peers[x].audience || x !in a then true
      else
        PeerMayChange(g, x, TalkPeer(g.peers[x], active));
        SteadyRefresh(WithPeer(g, x, TalkPeer(g.peers[x], active)), x, active, a, b)
    case OpRefresh(x, a, b) =>
      InRoom(g, x) && x in a ==> SteadyRefresh(g, x, !g.peers[x].audience || g.peers[x].pushToTalk, a, b)
    case _ => true
  }

  lemma RefreshOrphans(g: Graph, x: PeerId, accepting: set<PeerId>, later: set<PeerId>)
    requires GraphInv(g) && NoOrphans(g)
    ensures NoOrphans(Refresh(g, x, accepting, later).0) <==>
      (InRoom(g, x) && x in accepting ==>
         SteadyRefresh(g, x, !g.peers[x].audience || g.peers[x].pushToTalk, accepting, later))
  {
    hide GraphInv, LazyPhase, Visit, NoneLost, Orphan, Rollback;
    if InRoom(g, x) && x in accepting {
      var publish := !g.peers[x].audience || g.peers[x].pushToTalk;
      LazyPhaseKeeps(g, x, publish, accepting);
      LazyPhaseOrphans(g, x, publish, accepting);
      var r := LazyPhase(g, x, publish, accepting);
      assert WithPeer(r.graph, x, g.peers[x]) == r.graph;
      if r.ok { VisitOrphans(g, x, g.peers[x], publish, accepting, later); }
    }
  }

  lemma RoleOrphans(g: Graph, r: RoomId, x: PeerId, audience: bool, video: bool, screen: bool,
                    accepting: set<PeerId>, later: set<PeerId>)
    requires GraphInv(g) && NoOrphans(g)
    ensures NoOrphans(ChangeRole(g, r, x, audience, video, screen, accepting, later).0) <==>
      Steady(g, OpRole(r, x, audience, video, screen, accepting, later))
  {
    hide GraphInv, LazyPhase, Visit, NoneLost, Orphan, Rollback;
    if InRoom(g, x) && g.peers[x].room == Some(r) && g.peers[x].audience != audience {
      LazyPhaseKeeps(g, x, !audience, accepting);
      LazyPhaseOrphans(g, x, !audience, accepting);
      if LazyPhase(g, x, !audience, accepting).ok {
        VisitOrphans(g, x, RolePeer(g.peers[x], audience, video, screen), !audience, accepting, later);
      }
    }
  }

  lemma TalkOrphans(g: Graph, r: RoomId, x: PeerId, active: bool, accepting: set<PeerId>, later: set<PeerId>)
    requires GraphInv(g) && NoOrphans(g)
    ensures NoOrphans(SetPushToTalk(g, r, x, active, accepting, later).0) <==>
      Steady(g, OpPushToTalk(r, x, active, accepting, later))
  {
    hide GraphInv, Refresh, SteadyRefresh, Orphan;
    if InRoom(g, x) && g.peers[x].room == Some(r) && g.peers[x].audience {
      var g1 := WithPeer(g, x, TalkPeer(g.peers[x], active));
      PeerMayChange(g, x, TalkPeer(g.peers[x], active));
      SameOrphans(g, g1);
      RefreshOrphans(g1, x, accepting, later);
      var g2 := Refresh(g1, x, accepting, later).0;
      SameOrphans(g2, g2.(peers := g2.peers[x := g.peers[x]]));
    }
  }

  /** Negotiation makes no slot active. */
  lemma NegotiationOrphans(g: Graph, x: PeerId, op: RemoteSlots.Op)
    requires GraphInv(g) && NoOrphans(g) && (op.DoCapture? || op.DoInstall? || op.DoAnswer?)
    ensures NoOrphans(Negotiate(g, x, op))
  {
    hide EdgesInv, RoomsInv;
    var g' := Negotiate(g, x, op);
    if x in g.peers {
      SystemOk(g, x);
      forall s, k ensures !Orphan(g', s, k) {
        assert !Orphan(g, s, k);
        if s == x && 0 <= k < MAX_REMOTE_SLOTS { NegotiationActive(g.tables[x], op, k); }
      }
    }
  }

  lemma SystemOk(g: Graph, x: PeerId)
    requires EdgesInv(g) && x in g.peers
    ensures g.Keyed() && SystemInv(g.tables[x])
  {
  }

  lemma NegotiationActive(s: System, op: RemoteSlots.Op, k: nat)
    requires SystemInv(s) && (op.DoCapture? || op.DoInstall? || op.DoAnswer?) && k < MAX_REMOTE_SLOTS
    ensures var s' := Step(s, op);
      |s'.table.slots| == MAX_REMOTE_SLOTS && (s'.table.slots[k].state.Active? ==> s.table.slots[k].state.Active?)
  {
  }

  /** Without orphans before, an operation leaves none exactly if it is steady. */
  lemma StepOrphans(g: Graph, op: RoomRuns.Op)
    requires GraphInv(g) && NoOrphans(g)
    ensures NoOrphans(GraphStep(g, op)) <==> Steady(g, op)
  {
    hide EdgesInv, RoomsInv, Join, Leave, ChangeRole, SetPushToTalk, Refresh, Negotiate, SteadyRefresh;
    match op
    case OpRoom(_) => SameOrphans(g, GraphStep(g, op));
    case OpSession(x, userId, audience) => if x !in g.peers && x > 0 { NewSessionOrphans(g, x, userId, audience); }
    case OpJoin(r, x, accepting, abort) =>
      if x in g.peers && r in g.rooms { RoomIsOk(g, r); JoinOrphans(g, r, x, accepting, abort); }
    case OpLeave(r, x) => if x in g.peers && r in g.rooms { LeaveOrphans(g, r, x); }
    case OpRole(r, x, toAudience, video, screen, a, b) => RoleOrphans(g, r, x, toAudience, video, screen, a, b);
    case OpPushToTalk(r, x, active, a, b) => TalkOrphans(g, r, x, active, a, b);
    case OpRefresh(x, a, b) => RefreshOrphans(g, x, a, b);
    case OpMedia(_, _) => SameOrphans(g, GraphStep(g, op));
    case OpCapture(x) => NegotiationOrphans(g, x, DoCapture);
    case OpInstall(x, index) => NegotiationOrphans(g, x, DoInstall(index));
    case OpAnswer(x, index) => NegotiationOrphans(g, x, DoAnswer(index));
  }

  lemma RoomIsOk(g: Graph, r: RoomId)
    requires RoomsInv(g.peers, g.rooms) && r in g.rooms
    ensures RoomOk(g.peers, r, g.rooms[r])
  {
  }

  lemma NewSessionOrphans(g: Graph, x: PeerId, userId: int, audience: bool)
    requires NoOrphans(g)
    ensures NoOrphans(NewSession(g, x, userId, audience))
  {
    var g' := NewSession(g, x, userId, audience);
    forall s, k ensures !Orphan(g', s, k) { assert !Orphan(g, s, k); }
  }

  // -------------------------------------------------------------------------- runs

  /** At no point of the run does a slot lack its entry. */
  ghost predicate NoOrphansThrough(g: Graph, ops: seq<RoomRuns.Op>)
    requires GraphInv(g)
    decreases |ops|
  {
    if ops == [] then NoOrphans(g)
    else
      GraphStepKeeps(g, ops[0]);
      NoOrphans(g) && NoOrphansThrough(GraphStep(g, ops[0]), ops[1..])
  }

  ghost predicate SteadyThrough(g: Graph, ops: seq<RoomRuns.Op>)
    requires GraphInv(g)
    decreases |ops|
  {
    if ops == [] then true
    else
      GraphStepKeeps(g, ops[0]);
      Steady(g, ops[0]) && SteadyThrough(GraphStep(g, ops[0]), ops[1..])
  }

  lemma {:induction false} RunOrphans(g: Graph, ops: seq<RoomRuns.Op>)
    requires GraphInv(g) && NoOrphans(g)
    ensures NoOrphansThrough(g, ops) <==> SteadyThrough(g, ops)
    decreases |ops|
  {
    hide GraphInv, NoOrphans, GraphStep, Steady;
    if ops != [] {
      GraphStepKeeps(g, ops[0]);
      StepOrphans(g, ops[0]);
      if Steady(g, ops[0]) { RunOrphans(GraphStep(g, ops[0]), ops[1..]); }
    }
  }

  /** In every run: each active slot carries an entry at all times, if and only if no role change,
      push-to-talk or refresh loses a session between its two loops. */
  lemma SlotsCarryEntriesIffSteady(ops: seq<RoomRuns.Op>)
    ensures GraphInv(EMPTY_GRAPH)
    ensures NoOrphansThrough(EMPTY_GRAPH, ops) <==> SteadyThrough(EMPTY_GRAPH, ops)
  {
    EmptyGraphInv();
    RunOrphans(EMPTY_GRAPH, ops);
  }
}

/**
 Joining a room: slots are reserved on both sides first, then entries and routes are added.

 Which sessions accept work is read several times during one operation and may change in
 between, so every operation takes the sets of accepting sessions that its loops saw.
 Whatever can abort a join after its reservations (allocation, the signaling queue, a
 session that stopped accepting work) is the flag `abort`.
 */
module RoomOperations {
  import opened Wrappers
  import opened RemoteSlots
  import opened MediaGraph

  /** The accepting sessions of a room other than `x`, in seat order. */
  function Others(seats: seq<Option<PeerId>>, x: PeerId, accepting: set<PeerId>, from: nat): seq<PeerId>
    requires from <= |seats|
    decreases |seats| - from
  {
    if from == |seats| then []
    else
      var takes := seats[from].Some? && seats[from].value != x && seats[from].value in accepting;
      (if takes then [seats[from].value] else []) + Others(seats, x, accepting, from + 1)
  }

  /** Distinct sessions, all in `x`'s room and none of them `x`. */
  ghost predicate Roommates(g: Graph, x: PeerId, qs: seq<PeerId>) {
    && x in g.peers && g.peers[x].room.Some?
    && (forall i | 0 <= i < |qs| :: qs[i] in g.peers && qs[i] != x && g.peers[qs[i]].room == g.peers[x].room)
    && (forall i, j | 0 <= i < j < |qs| :: qs[i] != qs[j])
  }

  lemma {:induction false} OthersSeated(peers: map<PeerId, Peer>, r: RoomId, room: Room, x: PeerId,
                                        accepting: set<PeerId>, from: nat)
    requires RoomOk(peers, r, room) && from <= |room.seats|
    ensures var qs := Others(room.seats, x, accepting, from);
      && (forall i | 0 <= i < |qs| ::
            && qs[i] != x && qs[i] in accepting && qs[i] in peers
            && peers[qs[i]].room == Some(r) && from <= peers[qs[i]].roomSlot)
      && (forall i, j | 0 <= i < j < |qs| :: qs[i] != qs[j])
      && (forall k | from <= k < |room.seats| && room.seats[k].Some? ::
            room.seats[k].value != x && room.seats[k].value in accepting ==> room.seats[k].value in qs)
    decreases |room.seats| - from
  {
    if from < |room.seats| {
      OthersSeated(peers, r, room, x, accepting, from + 1);
      assert SeatOk(peers, r, room, from);
    }
  }

  // ------------------------------------------------------------- reservations

  /** What a join or a refresh reserved: in order for the rollback, and by session for the commit. */
  datatype Pair = Pair(atTarget: Option<Reservation>, atPeer: Reservation)
  datatype Reserved = Reserved(graph: Graph, held: seq<Reservation>, pairs: seq<Pair>, ok: bool)

  /** Slot `h` of `owner` is assigned to `p` and carries no entry yet. */
  ghost predicate HeldFor(g: Graph, h: Reservation, owner: PeerId, p: PeerId) {
    && h.owner == owner && owner in g.receivers && p in g.peers
    && Assigned(g.tables, owner, p, g.peers[p].userId, h.slot, h.generation)
    && h.slot !in g.receivers[owner]
  }

  ghost predicate Unused(g: Graph, h: Reservation) {
    h.owner in g.receivers && h.slot !in g.receivers[h.owner]
  }

  ghost predicate AllUnused(g: Graph, held: seq<Reservation>) {
    forall i | 0 <= i < |held| :: Unused(g, held[i])
  }

  ghost predicate AllNamed(g: Graph, held: seq<Reservation>) {
    forall i | 0 <= i < |held| :: held[i].owner in g.peers
  }

  /** Retires reservations, the last one first. */
  function Rollback(g: Graph, held: seq<Reservation>): (r: Graph)
    requires Ready(g) && AllNamed(g, held)
    ensures Ready(r) && r == g.(tables := r.tables)
    decreases |held|
  {
    if held == [] then g else Rollback(RetireFor(g, held[|held| - 1]).0, held[..|held| - 1])
  }

  lemma {:induction false} RollbackKeeps(g: Graph, held: seq<Reservation>)
    requires EdgesInv(g) && AllUnused(g, held)
    ensures Ready(g) && EdgesInv(Rollback(g, held))
    decreases |held|
  {
    if held != [] {
      RetireForKeeps(g, held[|held| - 1]);
      RollbackKeeps(RetireFor(g, held[|held| - 1]).0, held[..|held| - 1]);
    }
  }

  /** The slots a join needs for one target: the target's for `x` unless `x` is audience,
      and `x`'s for the target. */
  function ReservePair(g: Graph, x: PeerId, t: PeerId, held: seq<Reservation>): (r: Reserved)
    requires Ready(g) && x in g.peers && t in g.peers
    ensures Ready(r.graph) && r.graph == g.(tables := r.graph.tables)
    ensures forall h | h in r.held :: h in held || h.owner == x || h.owner == t
    ensures r.ok ==> |r.pairs| == 1
  {
    if g.peers[x].audience then
      var (g1, mine) := ReserveFor(g, x, t);
      if mine.None? then Reserved(g1, held, [], false)
      else
        var h := Reservation(x, mine.value.0, mine.value.1);
        Reserved(g1, held + [h], [Pair(None, h)], true)
    else
      var (g1, theirs) := ReserveFor(g, t, x);
      if theirs.None? then Reserved(g1, held, [], false)
      else
        var h1 := Reservation(t, theirs.value.0, theirs.value.1);
        var (g2, mine) := ReserveFor(g1, x, t);
        if mine.None? then Reserved(g2, held + [h1], [], false)
        else
          var h2 := Reservation(x, mine.value.0, mine.value.1);
          Reserved(g2, held + [h1, h2], [Pair(Some(h1), h2)], true)
  }

  function ReserveTargets(g: Graph, x: PeerId, targets: seq<PeerId>, held: seq<Reservation>,
                          pairs: seq<Pair>): (r: Reserved)
    requires Ready(g) && x in g.peers && |pairs| <= |targets| && forall i | 0 <= i < |targets| :: targets[i] in g.peers
    ensures Ready(r.graph) && r.graph == g.(tables := r.graph.tables)
    ensures forall h | h in r.held :: h in held || h.owner in g.peers
    ensures r.ok ==> |r.pairs| == |targets|
    decreases |targets| - |pairs|
  {
    if |pairs| == |targets| then Reserved(g, held, pairs, true)
    else
      var one := ReservePair(g, x, targets[|pairs|], held);
      if !one.ok then one.(pairs := pairs)
      else ReserveTargets(one.graph, x, targets, one.held, pairs + one.pairs)
  }

  ghost predicate PairOk(g: Graph, x: PeerId, t: PeerId, pair: Pair) {
    && x in g.peers
    && HeldFor(g, pair.atPeer, x, t)
    && (pair.atTarget.Some? <==> !g.peers[x].audience)
    && (pair.atTarget.Some? ==> HeldFor(g, pair.atTarget.value, t, x))
  }

  /** Neither side knows the other. */
  ghost predicate Strangers(g: Graph, x: PeerId, t: PeerId) {
    x in g.receivers && t in g.receivers && NoEntry(g.receivers[x], t) && NoEntry(g.receivers[t], x)
  }

  lemma EdgesReady(g: Graph)
    requires EdgesInv(g)
    ensures Ready(g)
  {
  }

  lemma ReservePairKeeps(g: Graph, x: PeerId, t: PeerId, held: seq<Reservation>)
    requires EdgesInv(g) && x in g.peers && t in g.peers && x != t && Strangers(g, x, t)
    requires AllUnused(g, held)
    ensures Ready(g)
    ensures var r := ReservePair(g, x, t, held);
      && EdgesInv(r.graph)
      && AllUnused(r.graph, r.held)
      && (r.ok ==> PairOk(r.graph, x, t, r.pairs[0]))
      && (forall s, q, u, k, n | Assigned(g.tables, s, q, u, k, n) :: Assigned(r.graph.tables, s, q, u, k, n))
  {
    hide EdgesInv, Reserve;
    EdgesReady(g);
    if g.peers[x].audience {
      ReserveForKeeps(g, x, t);
    } else {
      ReserveForKeeps(g, t, x);
      ReserveForKeeps(ReserveFor(g, t, x).0, x, t);
    }
  }

  ghost predicate PairsOk(g: Graph, x: PeerId, targets: seq<PeerId>, pairs: seq<Pair>) {
    |pairs| <= |targets| && forall i | 0 <= i < |pairs| :: PairOk(g, x, targets[i], pairs[i])
  }

  /** Every target is another session that `x` does not know, nor the target `x`. */
  ghost predicate AllStrangers(g: Graph, x: PeerId, targets: seq<PeerId>) {
    forall i | 0 <= i < |targets| :: targets[i] in g.peers && targets[i] != x && Strangers(g, x, targets[i])
  }

  lemma {:induction false} ReserveTargetsKeeps(g: Graph, x: PeerId, targets: seq<PeerId>, held: seq<Reservation>,
      pairs: seq<Pair>)
    requires EdgesInv(g) && x in g.peers && AllStrangers(g, x, targets)
    requires AllUnused(g, held) && PairsOk(g, x, targets, pairs)
    ensures var r := ReserveTargets(g, x, targets, held, pairs);
      && EdgesInv(r.graph)
      && AllUnused(r.graph, r.held)
      && (r.ok ==> |r.pairs| == |targets| && PairsOk(r.graph, x, targets, r.pairs))
    decreases |targets| - |pairs|
  {
    hide EdgesInv, ReservePair, Assigned;
    EdgesReady(g);
    if |pairs| < |targets| {
      var t := targets[|pairs|];
      var one := ReservePair(g, x, t, held);
      ReservePairKeeps(g, x, t, held);
      if one.ok {
        forall i | 0 <= i < |pairs| ensures PairOk(one.graph, x, targets[i], pairs[i]) {
          assert PairOk(g, x, targets[i], pairs[i]);
        }
        assert PairsOk(one.graph, x, targets, pairs + one.pairs);
        ReserveTargetsKeeps(one.graph, x, targets, one.held, pairs + one.pairs);
      }
    }
  }

  // --------------------------------------------------------------------- join

  datatype JoinResult = JoinOk | JoinCapacity | JoinError

  /** Takes the last free seat of room `r`. */
  function Seat(g: Graph, r: RoomId, x: PeerId): Graph
    requires r in g.rooms && g.rooms[r].free != [] && x in g.peers
  {
    var room := g.rooms[r];
    var seat := room.free[|room.free| - 1];
    if 0 <= seat < |room.seats| then
      g.(rooms := g.rooms[r := Room(room.seats[seat := Some(x)], room.free[..|room.free| - 1])],
         peers := g.peers[x := g.peers[x].(room := Some(r), roomSlot := seat)])
    else g
  }

  /** Publishes the prepared snapshots and bundles of one target and of `x` towards it.  The
      joiner's own bundle starts empty, so its route to target i lands at index i. */
  function AttachPair(g: Graph, x: PeerId, t: PeerId, pair: Pair): (r: Option<Graph>)
    requires g.Keyed() && x in g.peers && t in g.peers
    ensures r.Some? ==> r.value.Keyed() && r.value == g.(receivers := r.value.receivers, bundles := r.value.bundles)
  {
    var theirs := if pair.atTarget.None? then Some(g)
                  else Attach(g, t, x, pair.atTarget.value.slot, pair.atTarget.value.generation);
    if theirs.None? then None else Attach(theirs.value, x, t, pair.atPeer.slot, pair.atPeer.generation)
  }

  function AttachTargets(g: Graph, x: PeerId, targets: seq<PeerId>, pairs: seq<Pair>, i: nat): (r: Option<Graph>)
    requires g.Keyed() && x in g.peers && i <= |targets| == |pairs|
    requires forall j | 0 <= j < |targets| :: targets[j] in g.peers
    ensures r.Some? ==> r.value.Keyed() && r.value == g.(receivers := r.value.receivers, bundles := r.value.bundles)
    decreases |targets| - i
  {
    if i == |targets| then Some(g)
    else
      var next := AttachPair(g, x, targets[i], pairs[i]);
      if next.None? then None else AttachTargets(next.value, x, targets, pairs, i + 1)
  }

  function Join(g: Graph, r: RoomId, x: PeerId, accepting: set<PeerId>, abort: bool): (Graph, JoinResult)
    requires Ready(g) && r in g.rooms && x in g.peers
    requires RoomOk(g.peers, r, g.rooms[r])
  {
    if g.peers[x].room.Some? || x !in accepting then (g, JoinError)
    else if g.rooms[r].free == [] then (g, JoinCapacity)
    else
      OthersSeated(g.peers, r, g.rooms[r], x, accepting, 0);
      var targets := Others(g.rooms[r].seats, x, accepting, 0);
      var reserved := ReserveTargets(g, x, targets, [], []);
      if !reserved.ok then (Rollback(reserved.graph, reserved.held), JoinCapacity)
      else if abort then (Rollback(reserved.graph, reserved.held), JoinError)
      else
        var joined := AttachTargets(Seat(reserved.graph, r, x), x, targets, reserved.pairs, 0);
        if joined.None? then (Rollback(reserved.graph, reserved.held), JoinError)
        else (joined.value, JoinOk)
  }

  lemma SeatKeepsRooms(g: Graph, r: RoomId, x: PeerId)
    requires RoomsInv(g.peers, g.rooms) && r in g.rooms && g.rooms[r].free != [] && x in g.peers
    requires g.peers[x].room.None?
    ensures RoomsInv(Seat(g, r, x).peers, Seat(g, r, x).rooms)
    ensures Seat(g, r, x).peers[x].room == Some(r)
  {
    var g' := Seat(g, r, x);
    var room := g.rooms[r];
    assert RoomOk(g.peers, r, room);
    var seat := room.free[|room.free| - 1];
    assert SeatOk(g.peers, r, room, seat) && seat in room.free;
    forall r1 | r1 in g'.rooms ensures RoomOk(g'.peers, r1, g'.rooms[r1]) {
      assert RoomOk(g.peers, r1, g.rooms[r1]);
      forall i | 0 <= i < |g'.rooms[r1].seats| ensures SeatOk(g'.peers, r1, g'.rooms[r1], i) {
        assert SeatOk(g.peers, r1, g.rooms[r1], i);
      }
    }
    forall q | q in g'.peers ensures HasSeat(g'.rooms, q, g'.peers[q]) {
      assert HasSeat(g.rooms, q, g.peers[q]);
    }
  }

  lemma SeatKeeps(g: Graph, r: RoomId, x: PeerId)
    requires GraphInv(g) && r in g.rooms && g.rooms[r].free != [] && x in g.peers && g.peers[x].room.None?
    ensures GraphInv(Seat(g, r, x))
    ensures var g' := Seat(g, r, x);
      g' ==
        g.(rooms := g'.rooms, peers := g.peers[x := g.peers[x].(room := Some(r), roomSlot := g'.peers[x].roomSlot)])
  {
    SeatKeepsRooms(g, r, x);
    var g' := Seat(g, r, x);
    forall s, k | s in g'.receivers && k in g'.receivers[s]
      ensures EntryOk(g'.peers, g'.tables, s, k, g'.receivers[s][k])
    {
      assert EntryOk(g.peers, g.tables, s, k, g.receivers[s][k]);
    }
  }

  /** Both directions of a commit: `x` hears `t`, and `t` hears `x` unless `x` is audience. */
  ghost predicate Linked(g: Graph, x: PeerId, t: PeerId, pair: Pair) {
    && HasEntry(g.receivers, x, t, pair.atPeer.slot, pair.atPeer.generation)
    && (pair.atTarget.Some? ==> HasEntry(g.receivers, t, x, pair.atTarget.value.slot, pair.atTarget.value.generation))
  }

  lemma AttachPairKeeps(g: Graph, x: PeerId, t: PeerId, pair: Pair)
    requires GraphInv(g) && g.Keyed() && x in g.peers && t in g.peers && x != t && g.peers[x].room.Some?
    requires g.peers[t].room == g.peers[x].room
    requires PairOk(g, x, t, pair) && Strangers(g, x, t)
    ensures AttachPair(g, x, t, pair).Some?
    ensures var g' := AttachPair(g, x, t, pair).value;
      && GraphInv(g') && Linked(g', x, t, pair)
      && (forall q | q in g.peers && q != x && q != t :: g'.receivers[q] == g.receivers[q])
      && (forall k | k in g'.receivers[x] :: k == pair.atPeer.slot || k in g.receivers[x])
      && (forall q | q != t && NoEntry(g.receivers[x], q) :: NoEntry(g'.receivers[x], q))
      && (forall p, k, n | p != t && HasEntry(g.receivers, x, p, k, n) :: HasEntry(g'.receivers, x, p, k, n))
  {
    hide GraphInv, Attach;
    if pair.atTarget.Some? {
      var h := pair.atTarget.value;
      AttachKeeps(g, t, x, h.slot, h.generation);
      AttachKeeps(Attach(g, t, x, h.slot, h.generation).value, x, t, pair.atPeer.slot, pair.atPeer.generation);
    } else {
      AttachKeeps(g, x, t, pair.atPeer.slot, pair.atPeer.generation);
    }
  }

  lemma {:induction false} AttachTargetsKeeps(g: Graph, x: PeerId, targets: seq<PeerId>, pairs: seq<Pair>, i: nat)
    requires GraphInv(g) && g.Keyed() && Roommates(g, x, targets) && i <= |targets| == |pairs|
    requires forall j | i <= j < |targets| :: PairOk(g, x, targets[j], pairs[j]) && Strangers(g, x, targets[j])
    requires forall j | 0 <= j < i :: Linked(g, x, targets[j], pairs[j])
    ensures var r := AttachTargets(g, x, targets, pairs, i);
      r.Some? && GraphInv(r.value) && forall j | 0 <= j < |targets| :: Linked(r.value, x, targets[j], pairs[j])
    decreases |targets| - i
  {
    hide GraphInv, AttachPair;
    if i < |targets| {
      var t, pair := targets[i], pairs[i];
      AttachPairKeeps(g, x, t, pair);
      var g1 := AttachPair(g, x, t, pair).value;
      forall j | i < j < |targets| ensures PairOk(g1, x, targets[j], pairs[j]) && Strangers(g1, x, targets[j]) {
        assert PairOk(g, x, targets[j], pairs[j]) && PairOk(g, x, t, pair);
      }
      forall j | 0 <= j <= i ensures Linked(g1, x, targets[j], pairs[j]) {
        if j < i { assert Linked(g, x, targets[j], pairs[j]); }
      }
      AttachTargetsKeeps(g1, x, targets, pairs, i + 1);
    }
  }

  /** A session in no room has no entries, and nobody has an entry for it. */
  lemma OutsidersAreStrangers(g: Graph, x: PeerId, t: PeerId)
    requires EdgesInv(g) && x in g.peers && t in g.peers && g.peers[x].room.None?
    ensures Strangers(g, x, t)
  {
    forall k | k in g.receivers[t] ensures g.receivers[t][k].publisher != x {
      assert EntryOk(g.peers, g.tables, t, k, g.receivers[t][k]);
    }
  }

  /** `s` has an entry for `p`. */
  predicate Hears(g: Graph, s: PeerId, p: PeerId)
    requires s in g.receivers
  {
    ScanEntry(g.receivers[s], p, 0) < MAX_REMOTE_SLOTS
  }

  lemma EntryIsHeard(g: Graph, s: PeerId, p: PeerId, k: int, n: int)
    requires EdgesInv(g) && HasEntry(g.receivers, s, p, k, n)
    ensures Hears(g, s, p)
  {
    assert EntryOk(g.peers, g.tables, s, k, g.receivers[s][k]);
  }

  /** A successful join links the joiner with every accepting session of the room; any other
      outcome leaves seats, entries and routes as they were.  Past its reservations a join
      fails only when it is aborted. */
  lemma JoinKeeps(g: Graph, r: RoomId, x: PeerId, accepting: set<PeerId>, abort: bool)
    requires GraphInv(g) && r in g.rooms && x in g.peers && RoomOk(g.peers, r, g.rooms[r])
    ensures var (g', result) := Join(g, r, x, accepting, abort);
      && GraphInv(g')
      && (result != JoinOk ==> g' == g.(tables := g'.tables))
      && (result == JoinError ==> g.peers[x].room.Some? || x !in accepting || abort)
      && (result == JoinOk ==>
            && g'.peers == g.peers[x := g'.peers[x]] && g'.peers[x].room == Some(r)
            && forall t | t in Others(g.rooms[r].seats, x, accepting, 0) ::
                 && t in g'.receivers && x in g'.receivers && Hears(g', x, t)
                 && (!g.peers[x].audience ==> Hears(g', t, x)))
  {
    hide EdgesInv, RoomsInv, RoomOk, ReserveTargets, Rollback, AttachTargets, Others, Seat;
    EdgesReady(g);
    if g.peers[x].room.None? && x in accepting && g.rooms[r].free != [] {
      var targets := Others(g.rooms[r].seats, x, accepting, 0);
      TargetsOfJoin(g, r, x, accepting, targets);
      ReserveTargetsKeeps(g, x, targets, [], []);
      var reserved := ReserveTargets(g, x, targets, [], []);
      if !reserved.ok || abort {
        RollbackKeeps(reserved.graph, reserved.held);
      } else {
        SeatKeeps(reserved.graph, r, x);
        JoinCommits(reserved.graph, r, x, targets, reserved.pairs);
      }
    }
  }

  /** The sessions a joiner is to be linked with: distinct, seated in the room, and strangers. */
  lemma TargetsOfJoin(g: Graph, r: RoomId, x: PeerId, accepting: set<PeerId>, targets: seq<PeerId>)
    requires EdgesInv(g) && x in g.peers && g.peers[x].room.None? && r in g.rooms && RoomOk(g.peers, r, g.rooms[r])
    requires targets == Others(g.rooms[r].seats, x, accepting, 0)
    ensures AllStrangers(g, x, targets)
    ensures forall i | 0 <= i < |targets| :: g.peers[targets[i]].room == Some(r)
    ensures forall i, j | 0 <= i < j < |targets| :: targets[i] != targets[j]
  {
    hide EdgesInv, Strangers;
    OthersSeated(g.peers, r, g.rooms[r], x, accepting, 0);
    forall i | 0 <= i < |targets| ensures Strangers(g, x, targets[i]) { OutsidersAreStrangers(g, x, targets[i]); }
  }

  lemma JoinCommits(g: Graph, r: RoomId, x: PeerId, targets: seq<PeerId>, pairs: seq<Pair>)
    requires GraphInv(g) && x in g.peers && r in g.rooms && g.rooms[r].free != [] && g.peers[x].room.None?
    requires AllStrangers(g, x, targets) && |pairs| == |targets| && PairsOk(g, x, targets, pairs)
    requires forall i | 0 <= i < |targets| :: g.peers[targets[i]].room == Some(r)
    requires forall i, j | 0 <= i < j < |targets| :: targets[i] != targets[j]
    ensures var g0 := Seat(g, r, x);
      && g0.Keyed() && g0.peers.Keys == g.peers.Keys
      && var joined := AttachTargets(g0, x, targets, pairs, 0);
         && joined.Some? && GraphInv(joined.value)
         && forall t | t in targets ::
              Hears(joined.value, x, t) && (!g.peers[x].audience ==> Hears(joined.value, t, x))
  {
    SeatKeeps(g, r, x);
    var g0 := Seat(g, r, x);
    forall j | 0 <= j < |targets| ensures PairOk(g0, x, targets[j], pairs[j]) && Strangers(g0, x, targets[j]) {
      assert PairOk(g, x, targets[j], pairs[j]) && Strangers(g, x, targets[j]);
    }
    AttachTargetsKeeps(g0, x, targets, pairs, 0);
    var g' := AttachTargets(g0, x, targets, pairs, 0).value;
    forall t | t in targets ensures Hears(g', x, t) && (!g.peers[x].audience ==> Hears(g', t, x)) {
      var j :| 0 <= j < |targets| && targets[j] == t;
      assert Linked(g', x, t, pairs[j]) && PairOk(g, x, t, pairs[j]);
      EntryIsHeard(g', x, t, pairs[j].atPeer.slot, pairs[j].atPeer.generation);
      if !g.peers[x].audience {
        EntryIsHeard(g', t, x, pairs[j].atTarget.value.slot, pairs[j].atTarget.value.generation);
      }
    }
  }
}
